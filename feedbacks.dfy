/** The anonymous feedback submission gate (POST /api/feedbacks): validate
    the body, resolve the actor token (the supplied one, or a fresh one),
    find the post, scan the post's earlier feedback for the same actor
    (equal token, or a stored address hash that verifies against the
    request's address), and either reject with 409 or store one record with
    the hashed address and append its id to the post's `feedbacks`. */
module FeedbackSubmission {
  import opened Common
  import opened Ordering
  import opened Models
  import opened Schemas
  import opened Store

  /** bcrypt, abstractly: `hash(ip, salt)` is one salted hash of an address
      and `verify(ip, stored)` is `bcrypt.compare`. */
  datatype Hasher = Hasher(hash: (string, nat) -> string, verify: (string, string) -> bool)

  /** What the model relies on of bcrypt: a hash is never empty, and an
      address verifies against every hash of itself. */
  ghost predicate Sound(h: Hasher)
  {
    forall ip, salt :: h.hash(ip, salt) != [] && h.verify(ip, h.hash(ip, salt))
  }

  /** The values the handler takes from its environment: the address
      `request-ip` extracts from the headers (if any), the uuid `uuid()` would
      return, the bcrypt salt, the ObjectId and timestamp mongoose assigns to
      the new record, and whether NODE_ENV is "production". */
  datatype Env = Env(clientIp: Option<string>, freshToken: string, salt: nat, newId: string, now: int, production: bool)

  datatype Cookie = Cookie(name: string, value: string, httpOnly: bool, secure: bool, maxAge: int, path: string)

  datatype Reply = Reply(
    status: int,
    success: bool,
    message: Message,
    errors: seq<string>,
    feedback: Option<Feedback>,
    userToken: Option<string>,
    cookie: Option<Cookie>)

  /** The new state of the posts and feedback collections with the reply. */
  datatype Outcome = Outcome(reply: Reply, posts: seq<Post>, feedbacks: seq<Feedback>)

  /** Thirty days in seconds (`60 * 60 * 24 * 30`). */
  const CookieMaxAge := 2592000

  function Failure(status: int, message: Message, errors: seq<string>): Reply
  {
    Reply(status, false, message, errors, None, None, None)
  }

  /** `requestIp.getClientIp(...) || "127.0.0.1"`. */
  function ResolveIp(clientIp: Option<string>): (ip: string)
    ensures ip != []
    ensures clientIp.Some? && clientIp.value != [] ==> ip == clientIp.value
    ensures clientIp.None? || clientIp.value == [] ==> ip == "127.0.0.1"
  {
    if clientIp.Some? && clientIp.value != [] then clientIp.value else "127.0.0.1"
  }

  /** `if (!userToken) userToken = uuid()`: a supplied non-empty token is used
      verbatim; an absent or empty one is replaced by the fresh uuid. */
  function ResolveToken(supplied: Option<string>, freshToken: string): (t: string)
    ensures supplied.Some? && supplied.value != [] ==> t == supplied.value
    ensures supplied.None? || supplied.value == [] ==> t == freshToken
  {
    if supplied.Some? && supplied.value != [] then supplied.value else freshToken
  }

  /** The guard of the scan, one plain OR per record: the same token, or an
      address that verifies against the stored hash. */
  predicate SameActor(f: Feedback, userToken: string, ipAddress: string, h: Hasher)
  {
    f.userToken == userToken || h.verify(ipAddress, f.ipAddress)
  }

  predicate HasDuplicate(prev: seq<Feedback>, userToken: string, ipAddress: string, h: Hasher)
  {
    exists i :: 0 <= i < |prev| && SameActor(prev[i], userToken, ipAddress, h)
  }

  /** The loop over the earlier feedback: it stops at the first record from
      the same actor and reports whether there was one. */
  method FindDuplicate(prev: seq<Feedback>, userToken: string, ipAddress: string, h: Hasher)
    returns (feedbackExists: bool, index: nat)
    ensures feedbackExists <==> HasDuplicate(prev, userToken, ipAddress, h)
    ensures feedbackExists ==> index < |prev| && SameActor(prev[index], userToken, ipAddress, h)
    ensures feedbackExists ==> forall j :: 0 <= j < index ==> !SameActor(prev[j], userToken, ipAddress, h)
  {
    feedbackExists, index := false, 0;
    var i := 0;
    while i < |prev|
      invariant 0 <= i <= |prev|
      invariant forall j :: 0 <= j < i ==> !SameActor(prev[j], userToken, ipAddress, h)
    {
      var isIpMatch := h.verify(ipAddress, prev[i].ipAddress);
      if prev[i].userToken == userToken || isIpMatch {
        feedbackExists, index := true, i;
        break;
      }
      i := i + 1;
    }
  }

  /** The 201 reply: the record, the effective token, and the `au` cookie
      holding the token for 30 days. */
  function Created(f: Feedback, userToken: string, production: bool): Reply
  {
    Reply(201, true, FeedbackSubmitted, [], Some(f), Some(userToken),
          Some(Cookie("au", userToken, true, production, CookieMaxAge, "/")))
  }

  /** `$push: { feedbacks: id }` on the k-th post. */
  function PushFeedback(posts: seq<Post>, k: nat, id: string): seq<Post>
    requires k < |posts|
  {
    posts[k := posts[k].(feedbacks := posts[k].feedbacks + [id])]
  }

  /** What the handler does, as a function of the collections before the
      request. A body that is not JSON makes `request.json()` throw, which
      ends in the 500 of the catch block. */
  function SubmitOutcome(posts: seq<Post>, feedbacks: seq<Feedback>, body: Option<Json>, env: Env, h: Hasher): (o: Outcome)
    ensures o.reply.status in {201, 400, 404, 409, 500}
    ensures o.reply.status != 201 ==> o.posts == posts && o.feedbacks == feedbacks
    ensures o.reply.status == 201 ==> |o.posts| == |posts| && |o.feedbacks| == |feedbacks| + 1
  {
    if body.None? then Outcome(Failure(500, FeedbackCreateFailed, []), posts, feedbacks)
    else
      var parsed := ParseFeedback(body.value);
      if parsed.Invalid? then Outcome(Failure(400, ValidationError, parsed.messages), posts, feedbacks)
      else AcceptOutcome(posts, feedbacks, parsed.data, env, h)
  }

  /** After validation: resolve the address and the token; a postId that is
      not an ObjectId makes `findOne` throw a CastError (500). */
  function AcceptOutcome(posts: seq<Post>, feedbacks: seq<Feedback>, input: FeedbackInput, env: Env, h: Hasher): (o: Outcome)
    ensures o.reply.status in {201, 404, 409, 500}
    ensures o.reply.status != 201 ==> o.posts == posts && o.feedbacks == feedbacks
    ensures o.reply.status == 201 ==> |o.posts| == |posts| && |o.feedbacks| == |feedbacks| + 1
  {
    var postId := CastObjectId(input.postId);
    if postId.None? then Outcome(Failure(500, FeedbackCreateFailed, []), posts, feedbacks)
    else LookupOutcome(posts, feedbacks, postId.value, input.content,
                       ResolveToken(input.userToken, env.freshToken), ResolveIp(env.clientIp), env, h)
  }

  /** After the cast: 404 for a missing post, 409 for a repeated actor, a
      500 when the record fails mongoose validation (an all-blank content),
      and otherwise the record is stored and its id pushed onto the post. */
  function LookupOutcome(posts: seq<Post>, feedbacks: seq<Feedback>, postId: string, content: string,
                         token: string, ip: string, env: Env, h: Hasher): (o: Outcome)
    ensures o.reply.status in {201, 404, 409, 500}
    ensures o.reply.status != 201 ==> o.posts == posts && o.feedbacks == feedbacks
    ensures o.reply.status == 201 ==> |o.posts| == |posts| && |o.feedbacks| == |feedbacks| + 1
  {
    var k := FindPost(posts, postId);
    if k.None? then Outcome(Failure(404, PostNotFound, []), posts, feedbacks)
    else if HasDuplicate(FeedbacksOf(feedbacks, postId), token, ip, h)
    then Outcome(Failure(409, AlreadySubmitted, []), posts, feedbacks)
    else StoreOutcome(posts, feedbacks, k.value, postId, content, token, ip, env, h)
  }

  /** The record is built (a 500 when mongoose validation refuses it), saved,
      and its id pushed onto the k-th post. */
  function StoreOutcome(posts: seq<Post>, feedbacks: seq<Feedback>, k: nat, postId: string, content: string,
                        token: string, ip: string, env: Env, h: Hasher): (o: Outcome)
    requires k < |posts|
    ensures o.reply.status in {201, 500}
    ensures o.reply.status != 201 ==> o.posts == posts && o.feedbacks == feedbacks
    ensures o.reply.status == 201 ==> |o.posts| == |posts| && |o.feedbacks| == |feedbacks| + 1
  {
    var f := NewFeedback(env.newId, postId, content, h.hash(ip, env.salt), token, env.now);
    if f.Err? then Outcome(Failure(500, FeedbackCreateFailed, []), posts, feedbacks)
    else Outcome(Created(f.value, token, env.production), PushFeedback(posts, k, f.value.id), feedbacks + [f.value])
  }

  /** Pushing an id onto one post's list changes no post's id or link. */
  lemma PushFeedbackKeepsKeys(posts: seq<Post>, k: nat, id: string)
    requires k < |posts|
    ensures DistinctPostIds(posts) ==> DistinctPostIds(PushFeedback(posts, k, id))
    ensures DistinctLinks(posts) ==> DistinctLinks(PushFeedback(posts, k, id))
  {
    var r := PushFeedback(posts, k, id);
    assert forall j :: 0 <= j < |r| ==> r[j].id == posts[j].id && r[j].link == posts[j].link;
  }

  /** The handler itself, over the store. */
  method Submit(db: Db, body: Option<Json>, env: Env, h: Hasher) returns (reply: Reply)
    requires db.Valid()
    requires forall i :: 0 <= i < |db.feedbacks| ==> db.feedbacks[i].id != env.newId
    modifies db
    ensures db.Valid()
    ensures var o := SubmitOutcome(old(db.posts), old(db.feedbacks), body, env, h);
            reply == o.reply && db.posts == o.posts && db.feedbacks == o.feedbacks
    ensures db.users == old(db.users)
  {
    if body.None? {
      return Failure(500, FeedbackCreateFailed, []);
    }
    var parsed := ParseFeedback(body.value);
    if parsed.Invalid? {
      return Failure(400, ValidationError, parsed.messages);
    }
    var ipAddress := ResolveIp(env.clientIp);
    var content := parsed.data.content;
    var userToken := if parsed.data.userToken.Some? then parsed.data.userToken.value else [];
    if userToken == [] {
      userToken := env.freshToken;
    }
    assert userToken == ResolveToken(parsed.data.userToken, env.freshToken);

    var postId := CastObjectId(parsed.data.postId);
    if postId.None? {
      return Failure(500, FeedbackCreateFailed, []);
    }
    assert SubmitOutcome(db.posts, db.feedbacks, body, env, h) ==
           LookupOutcome(db.posts, db.feedbacks, postId.value, content, userToken, ipAddress, env, h);
    reply := SubmitToPost(db, postId.value, content, userToken, ipAddress, env, h);
  }

  /** The part of the handler after the cast: find the post, scan its
      feedback, and store the record. */
  method SubmitToPost(db: Db, postId: string, content: string, userToken: string, ipAddress: string, env: Env, h: Hasher)
    returns (reply: Reply)
    requires db.Valid()
    requires forall i :: 0 <= i < |db.feedbacks| ==> db.feedbacks[i].id != env.newId
    modifies db
    ensures db.Valid()
    ensures var o := LookupOutcome(old(db.posts), old(db.feedbacks), postId, content, userToken, ipAddress, env, h);
            reply == o.reply && db.posts == o.posts && db.feedbacks == o.feedbacks
    ensures db.users == old(db.users)
  {
    var k := FindPost(db.posts, postId);
    if k.None? {
      return Failure(404, PostNotFound, []);
    }

    var prevFeedbacks := FeedbacksOf(db.feedbacks, postId);
    var feedbackExists, _ := FindDuplicate(prevFeedbacks, userToken, ipAddress, h);
    if feedbackExists {
      return Failure(409, AlreadySubmitted, []);
    }

    reply := StoreFeedback(db, k.value, postId, content, userToken, ipAddress, env, h);
  }

  /** Build the record, save it, and push its id onto the k-th post. */
  method StoreFeedback(db: Db, k: nat, postId: string, content: string, userToken: string, ipAddress: string, env: Env, h: Hasher)
    returns (reply: Reply)
    requires db.Valid() && k < |db.posts|
    requires forall i :: 0 <= i < |db.feedbacks| ==> db.feedbacks[i].id != env.newId
    modifies db
    ensures db.Valid()
    ensures var o := StoreOutcome(old(db.posts), old(db.feedbacks), k, postId, content, userToken, ipAddress, env, h);
            reply == o.reply && db.posts == o.posts && db.feedbacks == o.feedbacks
    ensures db.users == old(db.users)
  {
    var hashedIp := h.hash(ipAddress, env.salt);
    var feedback := NewFeedback(env.newId, postId, content, hashedIp, userToken, env.now);
    if feedback.Err? {
      return Failure(500, FeedbackCreateFailed, []);
    }
    PushFeedbackKeepsKeys(db.posts, k, feedback.value.id);
    db.feedbacks := db.feedbacks + [feedback.value];
    db.posts := PushFeedback(db.posts, k, feedback.value.id);
    reply := Created(feedback.value, userToken, env.production);
  }

  // ---------------------------------------------------------------------
  // Properties of the gate

  /** Every rejection leaves both collections as they were, and the reply
      is one of the statuses the handler writes. */
  lemma RejectionChangesNothing(posts: seq<Post>, feedbacks: seq<Feedback>, body: Option<Json>, env: Env, h: Hasher)
    ensures var o := SubmitOutcome(posts, feedbacks, body, env, h);
            o.reply.status != 201 ==> o.posts == posts && o.feedbacks == feedbacks
    ensures SubmitOutcome(posts, feedbacks, body, env, h).reply.status in {201, 400, 404, 409, 500}
    ensures SubmitOutcome(posts, feedbacks, body, env, h).reply.success <==>
            SubmitOutcome(posts, feedbacks, body, env, h).reply.status == 201
  {
    if body.Some? && ParseFeedback(body.value).Valid? {
      var input := ParseFeedback(body.value).data;
      var postId := CastObjectId(input.postId);
      if postId.Some? {
        LookupRejectionChangesNothing(posts, feedbacks, postId.value, input.content,
                                      ResolveToken(input.userToken, env.freshToken), ResolveIp(env.clientIp), env, h);
      }
    }
  }

  lemma LookupRejectionChangesNothing(posts: seq<Post>, feedbacks: seq<Feedback>, postId: string, content: string,
                                      token: string, ip: string, env: Env, h: Hasher)
    ensures var o := LookupOutcome(posts, feedbacks, postId, content, token, ip, env, h);
            && (o.reply.status != 201 ==> o.posts == posts && o.feedbacks == feedbacks)
            && o.reply.status in {201, 404, 409, 500}
            && (o.reply.success <==> o.reply.status == 201)
  {
    var k := FindPost(posts, postId);
    if k.Some? && !HasDuplicate(FeedbacksOf(feedbacks, postId), token, ip, h) {
      assert LookupOutcome(posts, feedbacks, postId, content, token, ip, env, h) ==
             StoreOutcome(posts, feedbacks, k.value, postId, content, token, ip, env, h);
      StoreRejectionChangesNothing(posts, feedbacks, k.value, postId, content, token, ip, env, h);
    }
  }

  lemma StoreRejectionChangesNothing(posts: seq<Post>, feedbacks: seq<Feedback>, k: nat, postId: string, content: string,
                                     token: string, ip: string, env: Env, h: Hasher)
    requires k < |posts|
    ensures var o := StoreOutcome(posts, feedbacks, k, postId, content, token, ip, env, h);
            && (o.reply.status != 201 ==> o.posts == posts && o.feedbacks == feedbacks)
            && o.reply.status in {201, 500}
            && (o.reply.success <==> o.reply.status == 201)
  {
  }

  /** 400 exactly when the body fails feedbackSchema, reported with zod's
      messages before any lookup. */
  lemma InvalidBodyIs400(posts: seq<Post>, feedbacks: seq<Feedback>, body: Option<Json>, env: Env, h: Hasher)
    ensures var o := SubmitOutcome(posts, feedbacks, body, env, h);
            o.reply.status == 400 <==> body.Some? && ParseFeedback(body.value).Invalid?
    ensures var o := SubmitOutcome(posts, feedbacks, body, env, h);
            o.reply.status == 400 ==> o.reply.errors == ParseFeedback(body.value).messages && o.reply.errors != []
  {
  }

  /** 404 exactly when the body is valid, its postId is an ObjectId and no
      post has that id. */
  lemma MissingPostIs404(posts: seq<Post>, feedbacks: seq<Feedback>, body: Option<Json>, env: Env, h: Hasher)
    ensures SubmitOutcome(posts, feedbacks, body, env, h).reply.status == 404 <==>
            && body.Some? && ParseFeedback(body.value).Valid?
            && CastObjectId(ParseFeedback(body.value).data.postId).Some?
            && forall k :: 0 <= k < |posts| ==> posts[k].id != CastObjectId(ParseFeedback(body.value).data.postId).value
  {
  }

  /** Some earlier feedback on the post comes from the same actor. */
  predicate Conflicts(feedbacks: seq<Feedback>, postId: string, token: string, ip: string, h: Hasher)
  {
    exists i :: 0 <= i < |feedbacks| && feedbacks[i].postId == postId && SameActor(feedbacks[i], token, ip, h)
  }

  /** Scanning the post's feedback finds a match exactly when the whole
      collection holds a feedback on that post from the same actor. */
  lemma ScanFindsConflict(feedbacks: seq<Feedback>, postId: string, token: string, ip: string, h: Hasher)
    ensures HasDuplicate(FeedbacksOf(feedbacks, postId), token, ip, h) <==> Conflicts(feedbacks, postId, token, ip, h)
  {
    if HasDuplicate(FeedbacksOf(feedbacks, postId), token, ip, h) {
      DuplicateIsConflict(feedbacks, postId, token, ip, h);
    }
    if Conflicts(feedbacks, postId, token, ip, h) {
      ConflictIsDuplicate(feedbacks, postId, token, ip, h);
    }
  }

  lemma DuplicateIsConflict(feedbacks: seq<Feedback>, postId: string, token: string, ip: string, h: Hasher)
    requires HasDuplicate(FeedbacksOf(feedbacks, postId), token, ip, h)
    ensures Conflicts(feedbacks, postId, token, ip, h)
  {
    var prev := FeedbacksOf(feedbacks, postId);
    var j :| 0 <= j < |prev| && SameActor(prev[j], token, ip, h);
    assert prev[j] in multiset(feedbacks);
    var i :| 0 <= i < |feedbacks| && feedbacks[i] == prev[j];
    assert prev[j].postId == postId;
  }

  lemma ConflictIsDuplicate(feedbacks: seq<Feedback>, postId: string, token: string, ip: string, h: Hasher)
    requires Conflicts(feedbacks, postId, token, ip, h)
    ensures HasDuplicate(FeedbacksOf(feedbacks, postId), token, ip, h)
  {
    var prev := FeedbacksOf(feedbacks, postId);
    var i :| 0 <= i < |feedbacks| && feedbacks[i].postId == postId && SameActor(feedbacks[i], token, ip, h);
    FilterKeeps(feedbacks, (f: Feedback) => f.postId == postId, i);
    var j :| 0 <= j < |prev| && prev[j] == feedbacks[i];
  }

  /** 409 exactly when the body is valid, the post exists, and an earlier
      feedback on it carries the effective token or an address hash that
      verifies against the request's address -- either alone suffices, with
      no precedence between them. */
  lemma DuplicateIs409(posts: seq<Post>, feedbacks: seq<Feedback>, body: Option<Json>, env: Env, h: Hasher)
    ensures SubmitOutcome(posts, feedbacks, body, env, h).reply.status == 409 <==>
            && body.Some? && ParseFeedback(body.value).Valid?
            && var input := ParseFeedback(body.value).data;
               && CastObjectId(input.postId).Some?
               && FindPost(posts, CastObjectId(input.postId).value).Some?
               && Conflicts(feedbacks, CastObjectId(input.postId).value,
                            ResolveToken(input.userToken, env.freshToken), ResolveIp(env.clientIp), h)
  {
    if body.Some? && ParseFeedback(body.value).Valid? {
      var input := ParseFeedback(body.value).data;
      if CastObjectId(input.postId).Some? {
        ScanFindsConflict(feedbacks, CastObjectId(input.postId).value,
                          ResolveToken(input.userToken, env.freshToken), ResolveIp(env.clientIp), h);
      }
    }
  }

  /** The record a successful submission stores. */
  function StoredRecord(input: FeedbackInput, env: Env, h: Hasher): Feedback
    requires CastObjectId(input.postId).Some?
  {
    Feedback(env.newId, CastObjectId(input.postId).value, Trim(input.content),
             h.hash(ResolveIp(env.clientIp), env.salt), ResolveToken(input.userToken, env.freshToken),
             [], None, VoteCount(0, 0), env.now)
  }

  /** A successful submission creates exactly one record, at the end of the
      collection, holding the post's canonical id, the trimmed content, a hash
      of the address (never the address itself) and the effective token; it
      appends that record's id once to the end of the post's `feedbacks` and
      changes no other post; the reply carries the record, the token, and the
      token again in the 30-day `au` cookie. */
  lemma SuccessStoresOneRecord(posts: seq<Post>, feedbacks: seq<Feedback>, body: Option<Json>, env: Env, h: Hasher)
    requires SubmitOutcome(posts, feedbacks, body, env, h).reply.status == 201
    ensures body.Some? && ParseFeedback(body.value).Valid?
    ensures CastObjectId(ParseFeedback(body.value).data.postId).Some?
    ensures FindPost(posts, CastObjectId(ParseFeedback(body.value).data.postId).value).Some?
    ensures var input := ParseFeedback(body.value).data;
            var k := FindPost(posts, CastObjectId(input.postId).value).value;
            var f := StoredRecord(input, env, h);
            var o := SubmitOutcome(posts, feedbacks, body, env, h);
            && o.feedbacks == feedbacks + [f]
            && |o.posts| == |posts|
            && o.posts[k] == posts[k].(feedbacks := posts[k].feedbacks + [env.newId])
            && (forall j :: 0 <= j < |posts| && j != k ==> o.posts[j] == posts[j])
            && o.reply.feedback == Some(f)
            && o.reply.userToken == Some(f.userToken)
            && o.reply.cookie == Some(Cookie("au", f.userToken, true, env.production, 2592000, "/"))
  {
    var input := ParseFeedback(body.value).data;
    var postId := CastObjectId(input.postId).value;
    var token, ip := ResolveToken(input.userToken, env.freshToken), ResolveIp(env.clientIp);
    var k := FindPost(posts, postId).value;
    assert SubmitOutcome(posts, feedbacks, body, env, h) == StoreOutcome(posts, feedbacks, k, postId, input.content, token, ip, env, h);
    StoreSucceeds(posts, feedbacks, k, postId, input.content, token, ip, env, h);
  }

  /** The store step, when it succeeds, appends the record and pushes its id. */
  lemma StoreSucceeds(posts: seq<Post>, feedbacks: seq<Feedback>, k: nat, postId: string, content: string,
                      token: string, ip: string, env: Env, h: Hasher)
    requires k < |posts|
    requires StoreOutcome(posts, feedbacks, k, postId, content, token, ip, env, h).reply.status == 201
    ensures var f := Feedback(env.newId, postId, Trim(content), h.hash(ip, env.salt), token, [], None, VoteCount(0, 0), env.now);
            var o := StoreOutcome(posts, feedbacks, k, postId, content, token, ip, env, h);
            && o.feedbacks == feedbacks + [f]
            && |o.posts| == |posts|
            && o.posts[k] == posts[k].(feedbacks := posts[k].feedbacks + [env.newId])
            && (forall j :: 0 <= j < |posts| && j != k ==> o.posts[j] == posts[j])
            && o.reply.feedback == Some(f)
            && o.reply.userToken == Some(token)
            && o.reply.cookie == Some(Cookie("au", token, true, env.production, 2592000, "/"))
  {
  }

  /** The gate never looks at `isAcceptingFeedback`: closing or opening a
      post does not change what a submission to it does. */
  lemma AcceptingFlagIgnored(posts: seq<Post>, feedbacks: seq<Feedback>, body: Option<Json>, env: Env, h: Hasher, k: nat, flag: bool)
    requires k < |posts|
    ensures var closed := posts[k := posts[k].(isAcceptingFeedback := flag)];
            var o := SubmitOutcome(posts, feedbacks, body, env, h);
            var o' := SubmitOutcome(closed, feedbacks, body, env, h);
            o'.reply == o.reply && o'.feedbacks == o.feedbacks
  {
    var closed := posts[k := posts[k].(isAcceptingFeedback := flag)];
    forall id: string ensures FindPost(closed, id) == FindPost(posts, id) {
      SameIdsSameLookup(posts, closed, id);
    }
  }

  /** Lookups by id only see ids. */
  lemma {:induction false} SameIdsSameLookup(a: seq<Post>, b: seq<Post>, id: string)
    requires |a| == |b| && forall i :: 0 <= i < |a| ==> a[i].id == b[i].id
    ensures FindPost(a, id) == FindPost(b, id)
  {
    if a != [] {
      SameIdsSameLookup(a[1..], b[1..], id);
    }
  }

  /** The property the gate exists for: once a submission succeeded, a second
      one to the same post is rejected with 409 when it comes from the same
      address (whatever token it carries) or presents the token the first
      reply returned (whatever address it comes from). */
  lemma SecondSubmissionConflicts(posts: seq<Post>, feedbacks: seq<Feedback>, body1: Option<Json>, env1: Env,
                                  body2: Option<Json>, env2: Env, h: Hasher)
    requires Sound(h)
    requires SubmitOutcome(posts, feedbacks, body1, env1, h).reply.status == 201
    requires body1.Some? && ParseFeedback(body1.value).Valid?
    requires body2.Some? && ParseFeedback(body2.value).Valid?
    requires CastObjectId(ParseFeedback(body2.value).data.postId) == CastObjectId(ParseFeedback(body1.value).data.postId)
    requires || ResolveIp(env2.clientIp) == ResolveIp(env1.clientIp)
             || ParseFeedback(body2.value).data.userToken == SubmitOutcome(posts, feedbacks, body1, env1, h).reply.userToken
    ensures var o1 := SubmitOutcome(posts, feedbacks, body1, env1, h);
            SubmitOutcome(o1.posts, o1.feedbacks, body2, env2, h).reply.status == 409
  {
    var o1 := SubmitOutcome(posts, feedbacks, body1, env1, h);
    SuccessStoresOneRecord(posts, feedbacks, body1, env1, h);
    var input1 := ParseFeedback(body1.value).data;
    var input2 := ParseFeedback(body2.value).data;
    var postId := CastObjectId(input1.postId).value;
    var k := FindPost(posts, postId).value;
    var f := StoredRecord(input1, env1, h);
    assert o1.posts[k].id == postId;
    var token2 := ResolveToken(input2.userToken, env2.freshToken);
    var ip2 := ResolveIp(env2.clientIp);
    assert SameActor(f, token2, ip2, h);
    assert o1.feedbacks[|feedbacks|] == f;
    assert Conflicts(o1.feedbacks, postId, token2, ip2, h);
    DuplicateIs409(o1.posts, o1.feedbacks, body2, env2, h);
  }
}
