/** Account verification (POST /api/verify-code). A user is unverified until
    a request presents the stored six-digit code before its expiry; a
    request for an unverified user whose code has expired replaces the code
    and the expiry (one hour from now) and mails the new code instead. */
module VerifyCode {
  import opened Common
  import opened Models
  import opened Schemas
  import opened Store


  /** The reply, the users collection afterwards, and the email (if any)
      handed to the mailer, whose delivery the handler does not wait for. */
  datatype Outcome = Outcome(reply: Response, users: seq<User>, mail: Option<Mail>)

  function Reject(status: int, message: Message, errors: seq<string>, users: seq<User>): Outcome
  {
    Outcome(Response(status, false, message, errors), users, None)
  }

  /** The handler as a function of the users before the request. `username`
      is whatever the route reads as the username: the parsed data has none
      of its own, since the schema declares only `code`. `now` is the clock
      in milliseconds and `draw` the random draw behind a new code. */
  function VerifyOutcome(users: seq<User>, body: Option<Json>, username: string, now: int, draw: nat): (o: Outcome)
    ensures |o.users| == |users|
  {
    if body.None? then Reject(500, VerifyFailed, [], users)
    else
      var parsed := ParseVerify(body.value);
      if parsed.Invalid? then Reject(400, ZodValidationError, parsed.messages, users)
      else
        var k := FindByUsername(users, username);
        if k.None? then Reject(404, UserNotFound, [], users)
        else Decide(users, k.value, parsed.data.code, now, draw)
  }

  /** The three-way decision on the user that was found. */
  function Decide(users: seq<User>, k: nat, code: string, now: int, draw: nat): (o: Outcome)
    requires k < |users|
    ensures |o.users| == |users|
    ensures forall i :: 0 <= i < |users| && i != k ==> o.users[i] == users[i]
  {
    var user := users[k];
    var isCodeValid := user.verifyCode == code;
    var isCodeNotExpired := user.verifyCodeExpiry > now;
    if user.isVerified then Reject(400, AlreadyVerified, [], users)
    else if isCodeNotExpired && isCodeValid then
      Outcome(Response(200, true, AccountVerified, []), users[k := user.(isVerified := true)], None)
    else if !isCodeNotExpired then
      var newCode := IssuedCode(draw);
      Outcome(Response(400, false, CodeExpired, []),
              users[k := user.(verifyCode := newCode, verifyCodeExpiry := now + HourMs)],
              Some(Mail(user.email, user.username, newCode)))
    else Reject(400, InvalidCode, [], users)
  }

  /** The handler over the store: it fetches the user, changes the fetched
      record's fields and saves it back. */
  method Verify(db: Db, body: Option<Json>, username: string, now: int, draw: nat) returns (reply: Response, mail: Option<Mail>)
    requires db.Valid()
    modifies db
    ensures db.Valid()
    ensures var o := VerifyOutcome(old(db.users), body, username, now, draw);
            reply == o.reply && db.users == o.users && mail == o.mail
    ensures db.posts == old(db.posts) && db.feedbacks == old(db.feedbacks)
  {
    mail := None;
    if body.None? {
      return Response(500, false, VerifyFailed, []), None;
    }
    var parsed := ParseVerify(body.value);
    if parsed.Invalid? {
      return Response(400, false, ZodValidationError, parsed.messages), None;
    }
    var code := parsed.data.code;
    var k := FindByUsername(db.users, username);
    if k.None? {
      return Response(404, false, UserNotFound, []), None;
    }
    assert VerifyOutcome(db.users, body, username, now, draw) == Decide(db.users, k.value, code, now, draw);
    reply, mail := Apply(db, k.value, code, now, draw);
  }

  /** The decision on the fetched record, and its save. */
  method Apply(db: Db, k: nat, code: string, now: int, draw: nat) returns (reply: Response, mail: Option<Mail>)
    requires db.Valid() && k < |db.users|
    modifies db
    ensures db.Valid()
    ensures var o := Decide(old(db.users), k, code, now, draw);
            reply == o.reply && db.users == o.users && mail == o.mail
    ensures db.posts == old(db.posts) && db.feedbacks == old(db.feedbacks)
  {
    mail := None;
    var user := db.users[k];
    var isCodeValid := user.verifyCode == code;
    var isCodeNotExpired := user.verifyCodeExpiry > now;
    if user.isVerified {
      return Response(400, false, AlreadyVerified, []), None;
    }
    if isCodeNotExpired && isCodeValid && !user.isVerified {
      user := user.(isVerified := true);
      UpdateKeepsUnique(db.users, k, user);
      db.users := db.users[k := user];
      reply := Response(200, true, AccountVerified, []);
    } else if !isCodeNotExpired && !user.isVerified {
      var verifyCode := IssuedCode(draw);
      user := user.(verifyCode := verifyCode, verifyCodeExpiry := now + HourMs);
      UpdateKeepsUnique(db.users, k, user);
      db.users := db.users[k := user];
      mail := Some(Mail(user.email, user.username, verifyCode));
      reply := Response(400, false, CodeExpired, []);
    } else {
      reply := Response(400, false, InvalidCode, []);
    }
  }

  // ---------------------------------------------------------------------
  // Properties of the state machine

  /** What a step may do to the accounts: keep their number, keep every
      username and email, never clear `isVerified`, and change only the user
      the username names. */
  predicate KeepsAccounts(users: seq<User>, after: seq<User>, username: string)
  {
    && |after| == |users|
    && (forall i :: 0 <= i < |users| && users[i].isVerified ==> after[i].isVerified)
    && (forall i :: 0 <= i < |users| ==> after[i].username == users[i].username && after[i].email == users[i].email)
    && (forall i :: 0 <= i < |users| && after[i] != users[i] ==> FindByUsername(users, username) == Some(i))
  }

  /** Only the user the username names can change, no user is added or
      removed, usernames and emails never change, and a verified user stays
      verified: the state machine has no transition back. */
  lemma VerifiedIsPermanent(users: seq<User>, body: Option<Json>, username: string, now: int, draw: nat)
    ensures KeepsAccounts(users, VerifyOutcome(users, body, username, now, draw).users, username)
  {
    var o := VerifyOutcome(users, body, username, now, draw);
    if body.Some? && ParseVerify(body.value).Valid? && FindByUsername(users, username).Some? {
      var k := FindByUsername(users, username).value;
      var code := ParseVerify(body.value).data.code;
      assert o == Decide(users, k, code, now, draw);
      DecideTouchesOne(users, k, code, now, draw);
      OneChangeKeepsAccounts(users, o.users, username, k);
    } else {
      assert o.users == users;
    }
  }

  /** Replacing the named user by one with the same username and email and
      no cleared `isVerified` keeps the accounts. */
  lemma OneChangeKeepsAccounts(users: seq<User>, after: seq<User>, username: string, k: nat)
    requires FindByUsername(users, username) == Some(k) && k < |after|
    requires after == users[k := after[k]]
    requires after[k].username == users[k].username && after[k].email == users[k].email
    requires users[k].isVerified ==> after[k].isVerified
    ensures KeepsAccounts(users, after, username)
  {
    forall i | 0 <= i < |users| && i != k ensures after[i] == users[i] {
      assert after[i] == users[k := after[k]][i];
    }
  }

  /** The decision changes at most the k-th user, never its username or
      email, and never clears `isVerified`. */
  lemma DecideTouchesOne(users: seq<User>, k: nat, code: string, now: int, draw: nat)
    requires k < |users|
    ensures var o := Decide(users, k, code, now, draw);
            && o.users == users[k := o.users[k]]
            && o.users[k].username == users[k].username && o.users[k].email == users[k].email
            && (users[k].isVerified ==> o.users[k].isVerified)
  {
  }

  /** 200 exactly when the body is valid, the user exists and is unverified,
      the code equals the stored one and the stored expiry is strictly later
      than now; the one change is that user's `isVerified` becoming true. */
  lemma VerifiedIff200(users: seq<User>, body: Option<Json>, username: string, now: int, draw: nat)
    ensures var o := VerifyOutcome(users, body, username, now, draw);
            o.reply.status == 200 <==>
              && body.Some? && ParseVerify(body.value).Valid?
              && FindByUsername(users, username).Some?
              && var user := users[FindByUsername(users, username).value];
                 !user.isVerified && user.verifyCode == ParseVerify(body.value).data.code && user.verifyCodeExpiry > now
    ensures var o := VerifyOutcome(users, body, username, now, draw);
            o.reply.status == 200 ==>
              var k := FindByUsername(users, username).value;
              o.users == users[k := users[k].(isVerified := true)] && o.reply.success && o.mail.None?
  {
  }

  /** A user becomes verified only through a 200: some request presented
      that user's current code before it expired. */
  lemma VerificationNeedsCurrentCode(users: seq<User>, body: Option<Json>, username: string, now: int, draw: nat, i: nat)
    requires i < |users| && !users[i].isVerified
    requires VerifyOutcome(users, body, username, now, draw).users[i].isVerified
    ensures body.Some? && ParseVerify(body.value).Valid?
    ensures ParseVerify(body.value).data.code == users[i].verifyCode && users[i].verifyCodeExpiry > now
    ensures VerifyOutcome(users, body, username, now, draw).reply.status == 200
  {
    VerifiedIsPermanent(users, body, username, now, draw);
    assert FindByUsername(users, username) == Some(i);
  }

  /** An unverified user whose code expired (expiry at or before now) gets
      a new six-digit code valid for one hour, stays unverified and receives
      the code by email; the reply is 400 even when the presented code was
      the right one. */
  lemma ExpiredCodeReissued(users: seq<User>, body: Option<Json>, username: string, now: int, draw: nat)
    requires body.Some? && ParseVerify(body.value).Valid?
    requires FindByUsername(users, username).Some?
    requires var user := users[FindByUsername(users, username).value];
             !user.isVerified && user.verifyCodeExpiry <= now
    ensures var k := FindByUsername(users, username).value;
            var o := VerifyOutcome(users, body, username, now, draw);
            && o.reply == Response(400, false, CodeExpired, [])
            && o.users == users[k := o.users[k]]
            && o.users[k] == users[k].(verifyCode := IssuedCode(draw), verifyCodeExpiry := now + HourMs)
            && !o.users[k].isVerified
            && o.mail == Some(Mail(users[k].email, users[k].username, IssuedCode(draw)))
  {
  }

  /** Every other 400 and the 404 and 500 replies change no user. */
  lemma RejectionsChangeNothing(users: seq<User>, body: Option<Json>, username: string, now: int, draw: nat)
    ensures var o := VerifyOutcome(users, body, username, now, draw);
            o.reply.status != 200 && o.reply.message != CodeExpired ==> o.users == users && o.mail.None?
    ensures var o := VerifyOutcome(users, body, username, now, draw);
            o.reply.status in {200, 400, 404, 500} && (o.reply.success <==> o.reply.status == 200)
    ensures var o := VerifyOutcome(users, body, username, now, draw);
            o.reply.status == 404 <==> body.Some? && ParseVerify(body.value).Valid? && FindByUsername(users, username).None?
  {
    if body.Some? && ParseVerify(body.value).Valid? && FindByUsername(users, username).Some? {
      var k := FindByUsername(users, username).value;
      var user := users[k];
      var code := ParseVerify(body.value).data.code;
      if user.isVerified || (user.verifyCodeExpiry > now && user.verifyCode != code) {
        assert Decide(users, k, code, now, draw).users == users;
      }
    }
  }

  /** A user already verified gets 400 whatever code and time. */
  lemma AlreadyVerifiedIs400(users: seq<User>, body: Option<Json>, username: string, now: int, draw: nat)
    requires body.Some? && ParseVerify(body.value).Valid?
    requires FindByUsername(users, username).Some? && users[FindByUsername(users, username).value].isVerified
    ensures VerifyOutcome(users, body, username, now, draw) == Reject(400, AlreadyVerified, [], users)
  {
  }

  /** An unexpired but different code is refused and changes nothing. */
  lemma WrongCodeIs400(users: seq<User>, body: Option<Json>, username: string, now: int, draw: nat)
    requires body.Some? && ParseVerify(body.value).Valid?
    requires FindByUsername(users, username).Some?
    requires var user := users[FindByUsername(users, username).value];
             !user.isVerified && user.verifyCodeExpiry > now && user.verifyCode != ParseVerify(body.value).data.code
    ensures VerifyOutcome(users, body, username, now, draw) == Reject(400, InvalidCode, [], users)
  {
  }

  /** The body a client sends to present a code. */
  function CodeBody(code: string): Json
  {
    JObject(map["code" := JString(code)])
  }

  /** The reissued code completes the cycle: presenting it for the same
      username at any time before the new expiry verifies the account. */
  lemma {:induction false} ReissuedCodeVerifies(users: seq<User>, body: Option<Json>, username: string, now: int, draw: nat,
                                                later: int, draw': nat)
    requires body.Some? && ParseVerify(body.value).Valid?
    requires FindByUsername(users, username).Some?
    requires var user := users[FindByUsername(users, username).value];
             !user.isVerified && user.verifyCodeExpiry <= now
    requires later < now + HourMs
    ensures var o := VerifyOutcome(users, body, username, now, draw);
            var k := FindByUsername(users, username).value;
            VerifyOutcome(o.users, Some(CodeBody(o.users[k].verifyCode)), username, later, draw').reply.status == 200
  {
    var o := VerifyOutcome(users, body, username, now, draw);
    var k := FindByUsername(users, username).value;
    assert o == Decide(users, k, ParseVerify(body.value).data.code, now, draw);
    ReissueThenPresent(users, k, ParseVerify(body.value).data.code, now, draw, later, draw');
    VerifiedIsPermanent(users, body, username, now, draw);
    SameUsernamesSameLookup(users, o.users, username);
    PresentedCodeReachesDecision(o.users, username, o.users[k].verifyCode, later, draw');
  }

  /** The decision-level half of the cycle: after a reissue, the new code
      presented before the new expiry takes the 200 branch. */
  lemma ReissueThenPresent(users: seq<User>, k: nat, code: string, now: int, draw: nat, later: int, draw': nat)
    requires k < |users| && !users[k].isVerified && users[k].verifyCodeExpiry <= now && later < now + HourMs
    ensures var after := Decide(users, k, code, now, draw).users;
            |after[k].verifyCode| == 6 && Decide(after, k, after[k].verifyCode, later, draw').reply.status == 200
  {
  }

  /** A six-character code sent for a known username reaches the decision. */
  lemma PresentedCodeReachesDecision(users: seq<User>, username: string, code: string, now: int, draw: nat)
    requires FindByUsername(users, username).Some? && |code| == 6
    ensures VerifyOutcome(users, Some(CodeBody(code)), username, now, draw) ==
            Decide(users, FindByUsername(users, username).value, code, now, draw)
  {
    assert ParseVerify(CodeBody(code)) == Valid(VerifyInput(code));
  }
}
