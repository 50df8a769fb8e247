/** The mongoose record shapes: Post, Feedback, FeedbackVote, PostVote and
    User, each with the defaults, `trim` setters, `required` validators, enums
    and unique indexes its schema declares. Creating a document is a function
    that applies the defaults and setters and then runs the validators;
    inserting into a collection with a unique index is a function that fails
    with the duplicate-key error instead of adding a second row. */
module Models {
  import opened Common
  import opened Ordering

  // ---------------------------------------------------------------------
  // Post (post.model.ts)

  datatype SentimentSummary = SentimentSummary(positive: int, neutral: int, negative: int)

  datatype Post = Post(
    id: string,
    userId: string,
    title: string,
    description: Option<string>,
    link: Option<string>,
    likes: int,
    dislikes: int,
    isAcceptingFeedback: bool,
    feedbacks: seq<string>,
    sentimentSummary: SentimentSummary,
    mostUpvotedFeedback: Option<string>,
    mostDownvotedFeedback: Option<string>,
    commonFeedbackThemes: seq<string>,
    createdAt: int)

  /** mongoose's ValidationError text for a failed `required` validator. */
  function RequiredError(model: string, path: string): string
  {
    ValidatorError(model, path, "Path `" + path + "` is required.")
  }

  /** mongoose's ValidationError text for a validator with its own message. */
  function ValidatorError(model: string, path: string, message: string): string
  {
    model + " validation failed: " + path + ": " + message
  }

  /** `new PostModel({ title, description, userId })` followed by validation:
      title and description are trimmed, the title is required (an empty
      trimmed title fails), and every other field takes its default. */
  function NewPost(id: string, userId: string, title: string, description: Option<string>, createdAt: int): (r: Result<Post, string>)
    ensures r.Ok? <==> Trim(title) != []
    ensures r.Err? ==> r.error == RequiredError("Post", "title")
    ensures r.Ok? ==> var p := r.value;
      && p.id == id && p.userId == userId && p.createdAt == createdAt
      && p.title == Trim(title) && p.title != []
      && (description.None? ==> p.description.None?)
      && (description.Some? ==> p.description == Some(Trim(description.value)))
      && p.likes == 0 && p.dislikes == 0
      && p.isAcceptingFeedback
      && p.feedbacks == []
      && p.sentimentSummary == SentimentSummary(0, 0, 0)
      && p.commonFeedbackThemes == []
      && p.link.None? && p.mostUpvotedFeedback.None? && p.mostDownvotedFeedback.None?
  {
    var t := Trim(title);
    if t == [] then Err(RequiredError("Post", "title"))
    else
      var d := match description case None => None case Some(s) => Some(Trim(s));
      Ok(Post(id, userId, t, d, None, 0, 0, true, [], SentimentSummary(0, 0, 0), None, None, [], createdAt))
  }

  /** `createdAt`, the key of `.sort({ createdAt: -1 })`. */
  function CreatedAt(p: Post): int
  {
    p.createdAt
  }

  /** The filter `find({ userId })`. */
  predicate Own(p: Post, userId: string)
  {
    p.userId == userId
  }

  function OwnPosts(posts: seq<Post>, userId: string): (r: seq<Post>)
    ensures forall i :: 0 <= i < |r| ==> Own(r[i], userId)
  {
    Filter(posts, (p: Post) => Own(p, userId))
  }

  /** Post ids are distinct in the collection. */
  predicate DistinctPostIds(posts: seq<Post>)
  {
    forall i, j :: 0 <= i < j < |posts| ==> posts[i].id != posts[j].id
  }

  /** `link` carries a unique, non-sparse index: no two posts share a link,
      and since a document without the field is indexed under null, at most
      one post lacks a link. */
  predicate DistinctLinks(posts: seq<Post>)
  {
    forall i, j :: 0 <= i < j < |posts| ==> posts[i].link != posts[j].link
  }

  /** The first `save()` of a new post: an id or a link (missing links
      included) already in the collection is the duplicate-key error;
      otherwise the post is added at the end. */
  function InsertPost(posts: seq<Post>, p: Post): (r: Result<seq<Post>, string>)
    ensures r.Ok? <==> forall i :: 0 <= i < |posts| ==> posts[i].id != p.id && posts[i].link != p.link
    ensures r.Err? ==> r.error == DuplicateKeyError
    ensures r.Ok? ==> r.value == posts + [p]
    ensures r.Ok? && DistinctPostIds(posts) ==> DistinctPostIds(r.value)
    ensures r.Ok? && DistinctLinks(posts) ==> DistinctLinks(r.value)
  {
    if exists i :: 0 <= i < |posts| && (posts[i].id == p.id || posts[i].link == p.link)
    then Err(DuplicateKeyError)
    else Ok(posts + [p])
  }

  /** A later `save()` that sets the k-th post's link: the duplicate-key
      error when another post already has that link. */
  function SetLink(posts: seq<Post>, k: nat, link: string): (r: Result<seq<Post>, string>)
    requires k < |posts|
    ensures r.Ok? <==> forall i :: 0 <= i < |posts| && i != k ==> posts[i].link != Some(link)
    ensures r.Err? ==> r.error == DuplicateKeyError
    ensures r.Ok? ==> r.value == posts[k := posts[k].(link := Some(link))]
    ensures r.Ok? && DistinctPostIds(posts) ==> DistinctPostIds(r.value)
    ensures r.Ok? && DistinctLinks(posts) ==> DistinctLinks(r.value)
  {
    if exists i :: 0 <= i < |posts| && i != k && posts[i].link == Some(link)
    then Err(DuplicateKeyError)
    else Ok(posts[k := posts[k].(link := Some(link))])
  }

  /** The index of the post with the given id (`findOne({ _id })`). */
  function FindPost(posts: seq<Post>, id: string): (r: Option<nat>)
    ensures r.Some? ==> r.value < |posts| && posts[r.value].id == id
    ensures r.Some? ==> forall k :: 0 <= k < r.value ==> posts[k].id != id
    ensures r.None? ==> forall k :: 0 <= k < |posts| ==> posts[k].id != id
  {
    if posts == [] then None
    else if posts[0].id == id then Some(0)
    else match FindPost(posts[1..], id)
      case None => None
      case Some(k) => Some(k + 1)
  }

  // ---------------------------------------------------------------------
  // Feedback (feedback.model.ts)

  datatype Sentiment = Positive | Neutral | Negative

  function SentimentName(s: Sentiment): string
  {
    match s
    case Positive => "positive"
    case Neutral => "neutral"
    case Negative => "negative"
  }

  /** The `enum` validator of `sentiment`: exactly the three names pass. */
  function ParseSentiment(s: string): (r: Option<Sentiment>)
    ensures r.Some? <==> s == "positive" || s == "neutral" || s == "negative"
    ensures r.Some? ==> SentimentName(r.value) == s
  {
    if s == "positive" then Some(Positive)
    else if s == "neutral" then Some(Neutral)
    else if s == "negative" then Some(Negative)
    else None
  }

  lemma SentimentRoundTrip(s: Sentiment)
    ensures ParseSentiment(SentimentName(s)) == Some(s)
  {
  }

  datatype VoteCount = VoteCount(upvotes: int, downvotes: int)

  /** `votes` lists FeedbackVote ids. */
  datatype Feedback = Feedback(
    id: string,
    postId: string,
    content: string,
    ipAddress: string,
    userToken: string,
    votes: seq<string>,
    sentiment: Option<Sentiment>,
    voteCount: VoteCount,
    createdAt: int)

  /** `new FeedbackModel({ postId, content, ipAddress, userToken })` followed by
      validation: the content is trimmed, all four fields are required (a
      required string fails when empty), there are no votes, no sentiment and
      both vote counts are 0. */
  function NewFeedback(id: string, postId: string, content: string, ipAddress: string, userToken: string, createdAt: int): (r: Result<Feedback, string>)
    ensures r.Ok? <==> postId != [] && Trim(content) != [] && ipAddress != [] && userToken != []
    ensures r.Ok? ==> r.value == Feedback(id, postId, Trim(content), ipAddress, userToken, [], None, VoteCount(0, 0), createdAt)
  {
    var c := Trim(content);
    if postId == [] then Err(RequiredError("Feedback", "postId"))
    else if c == [] then Err(RequiredError("Feedback", "content"))
    else if ipAddress == [] then Err(RequiredError("Feedback", "ipAddress"))
    else if userToken == [] then Err(RequiredError("Feedback", "userToken"))
    else Ok(Feedback(id, postId, c, ipAddress, userToken, [], None, VoteCount(0, 0), createdAt))
  }

  /** `FeedbackModel.find({ postId })`: a post's feedback records. */
  function FeedbacksOf(feedbacks: seq<Feedback>, postId: string): seq<Feedback>
  {
    Filter(feedbacks, (f: Feedback) => f.postId == postId)
  }

  predicate DistinctFeedbackIds(feedbacks: seq<Feedback>)
  {
    forall i, j :: 0 <= i < j < |feedbacks| ==> feedbacks[i].id != feedbacks[j].id
  }

  // ---------------------------------------------------------------------
  // FeedbackVote (feedbackVote.model.ts)

  datatype FeedbackVoteType = Upvote | Downvote

  function FeedbackVoteTypeName(v: FeedbackVoteType): string
  {
    match v
    case Upvote => "upvote"
    case Downvote => "downvote"
  }

  /** The `enum` of `voteType`: exactly "upvote" and "downvote". */
  function ParseFeedbackVoteType(s: string): (r: Option<FeedbackVoteType>)
    ensures r.Some? <==> s == "upvote" || s == "downvote"
    ensures r.Some? ==> FeedbackVoteTypeName(r.value) == s
  {
    if s == "upvote" then Some(Upvote) else if s == "downvote" then Some(Downvote) else None
  }

  datatype FeedbackVote = FeedbackVote(
    id: string,
    feedbackId: string,
    ipAddress: string,
    userToken: string,
    voteType: FeedbackVoteType,
    createdAt: int)

  /** The key of the unique compound index { feedbackId, ipAddress, userToken }. */
  predicate SameVoteKey(a: FeedbackVote, b: FeedbackVote)
  {
    a.feedbackId == b.feedbackId && a.ipAddress == b.ipAddress && a.userToken == b.userToken
  }

  /** The store invariant the unique index maintains. */
  predicate UniqueVoteKeys(votes: seq<FeedbackVote>)
  {
    forall i, j :: 0 <= i < j < |votes| ==> !SameVoteKey(votes[i], votes[j])
  }

  const DuplicateKeyError := "E11000 duplicate key error"

  /** Saving a FeedbackVote: the required strings must be non-empty, and a
      second record with an existing (feedbackId, ipAddress, userToken) key is
      rejected with the duplicate-key error; otherwise the record is added. */
  function InsertFeedbackVote(votes: seq<FeedbackVote>, v: FeedbackVote): (r: Result<seq<FeedbackVote>, string>)
    ensures r.Ok? <==> (v.feedbackId != [] && v.ipAddress != [] && v.userToken != []
                        && forall i :: 0 <= i < |votes| ==> !SameVoteKey(votes[i], v))
    ensures (v.feedbackId != [] && v.ipAddress != [] && v.userToken != []
             && exists i :: 0 <= i < |votes| && SameVoteKey(votes[i], v))
            ==> r == Err(DuplicateKeyError)
    ensures r.Ok? ==> r.value == votes + [v]
    ensures r.Ok? && UniqueVoteKeys(votes) ==> UniqueVoteKeys(r.value)
  {
    if v.feedbackId == [] then Err(RequiredError("FeedbackVote", "feedbackId"))
    else if v.ipAddress == [] then Err(RequiredError("FeedbackVote", "ipAddress"))
    else if v.userToken == [] then Err(RequiredError("FeedbackVote", "userToken"))
    else if exists i :: 0 <= i < |votes| && SameVoteKey(votes[i], v) then Err(DuplicateKeyError)
    else Ok(votes + [v])
  }

  /** Two votes on the same feedback coexist when they differ in address
      hash or in token. */
  lemma {:induction false} DistinctVotersCoexist(a: FeedbackVote, b: FeedbackVote)
    requires a.feedbackId == b.feedbackId && (a.ipAddress != b.ipAddress || a.userToken != b.userToken)
    requires a.feedbackId != [] && a.ipAddress != [] && a.userToken != []
    requires b.ipAddress != [] && b.userToken != []
    ensures InsertFeedbackVote([], a).Ok?
    ensures InsertFeedbackVote([a], b) == Ok([a, b])
  {
    assert !SameVoteKey(a, b);
    assert forall i :: 0 <= i < |[a]| ==> !SameVoteKey([a][i], b);
    assert [a] + [b] == [a, b];
  }

  // ---------------------------------------------------------------------
  // PostVote (postVote.model.ts)

  datatype PostVoteType = Like | Dislike

  function PostVoteTypeName(v: PostVoteType): string
  {
    match v
    case Like => "like"
    case Dislike => "dislike"
  }

  /** The `enum` of `voteType`: exactly "like" and "dislike". */
  function ParsePostVoteType(s: string): (r: Option<PostVoteType>)
    ensures r.Some? <==> s == "like" || s == "dislike"
    ensures r.Some? ==> PostVoteTypeName(r.value) == s
  {
    if s == "like" then Some(Like) else if s == "dislike" then Some(Dislike) else None
  }

  /** ipAddress holds the one-way hash of the voter's address. */
  datatype PostVote = PostVote(
    id: string,
    postId: string,
    ipAddress: string,
    userToken: string,
    voteType: PostVoteType,
    createdAt: int)

  /** Saving a PostVote: only the required validators apply, since the schema
      declares no unique index. */
  function InsertPostVote(votes: seq<PostVote>, v: PostVote): (r: Result<seq<PostVote>, string>)
    ensures r.Ok? <==> v.postId != [] && v.ipAddress != [] && v.userToken != []
    ensures r.Ok? ==> r.value == votes + [v]
  {
    if v.postId == [] then Err(RequiredError("PostVote", "postId"))
    else if v.ipAddress == [] then Err(RequiredError("PostVote", "ipAddress"))
    else if v.userToken == [] then Err(RequiredError("PostVote", "userToken"))
    else Ok(votes + [v])
  }

  /** The votes on a post held by one token. */
  function VotesBy(votes: seq<PostVote>, postId: string, token: string): seq<PostVote>
  {
    Filter(votes, (x: PostVote) => x.postId == postId && x.userToken == token)
  }

  /** Nothing in storage stops one token from holding several votes on the
      same post: inserting the same vote twice succeeds. */
  lemma {:induction false} PostVotesMayRepeat(v: PostVote)
    requires v.postId != [] && v.ipAddress != [] && v.userToken != []
    ensures InsertPostVote([v], v) == Ok([v, v])
    ensures |VotesBy(InsertPostVote([v], v).value, v.postId, v.userToken)| == 2
  {
    var p := (x: PostVote) => x.postId == v.postId && x.userToken == v.userToken;
    assert InsertPostVote([v], v).value == [v, v];
    assert [v, v][1..] == [v];
    assert [v][1..] == [];
    assert Filter([v], p) == [v] + Filter([], p);
    assert Filter([v, v], p) == [v] + Filter([v], p);
  }

  // ---------------------------------------------------------------------
  // User (user.model.ts)

  datatype User = User(
    id: string,
    username: string,
    email: string,
    password: string,
    verifyCode: string,
    verifyCodeExpiry: int,
    isVerified: bool,
    isAcceptingMessage: bool)

  /** `new UserModel({ username, email, password, verifyCode, verifyCodeExpiry })`
      followed by validation: the username is trimmed; username, email,
      password and verifyCode are required; the email must match the schema's
      pattern (given here as emailPattern); isVerified defaults to false and
      isAcceptingMessage to true. */
  function NewUser(id: string, username: string, email: string, password: string, verifyCode: string,
                   verifyCodeExpiry: int, emailPattern: string -> bool): (r: Result<User, string>)
    ensures r.Ok? <==> Trim(username) != [] && email != [] && emailPattern(email) && password != [] && verifyCode != []
    ensures r.Ok? ==> r.value == User(id, Trim(username), email, password, verifyCode, verifyCodeExpiry, false, true)
    ensures r.Ok? ==> !r.value.isVerified && r.value.isAcceptingMessage
  {
    var u := Trim(username);
    if u == [] then Err(ValidatorError("User", "username", "username is required."))
    else if email == [] then Err(ValidatorError("User", "email", "email is required."))
    else if !emailPattern(email) then Err(ValidatorError("User", "email", "please enter a valid email address."))
    else if password == [] then Err(ValidatorError("User", "password", "password is required."))
    else if verifyCode == [] then Err(ValidatorError("User", "verifyCode", "verify code is required."))
    else Ok(User(id, u, email, password, verifyCode, verifyCodeExpiry, false, true))
  }

  /** The unique indexes on username and email. */
  predicate UniqueUsers(users: seq<User>)
  {
    forall i, j :: 0 <= i < j < |users| ==>
      users[i].username != users[j].username && users[i].email != users[j].email && users[i].id != users[j].id
  }

  /** Saving a new user: a username or email already present is the
      duplicate-key error; otherwise the user is added at the end. */
  function InsertUser(users: seq<User>, u: User): (r: Result<seq<User>, string>)
    ensures r.Ok? <==> forall i :: 0 <= i < |users| ==> users[i].username != u.username && users[i].email != u.email && users[i].id != u.id
    ensures r.Ok? ==> r.value == users + [u]
    ensures r.Ok? && UniqueUsers(users) ==> UniqueUsers(r.value)
  {
    if exists i :: 0 <= i < |users| && (users[i].username == u.username || users[i].email == u.email || users[i].id == u.id)
    then Err(DuplicateKeyError)
    else Ok(users + [u])
  }
  /** The index of the first user satisfying p (`findOne` in natural order). */
  function FindUser(users: seq<User>, p: User -> bool): (r: Option<nat>)
    ensures r.Some? ==> r.value < |users| && p(users[r.value])
    ensures r.Some? ==> forall k :: 0 <= k < r.value ==> !p(users[k])
    ensures r.None? ==> forall k :: 0 <= k < |users| ==> !p(users[k])
  {
    if users == [] then None
    else if p(users[0]) then Some(0)
    else match FindUser(users[1..], p)
      case None => None
      case Some(k) => Some(k + 1)
  }

  /** A user appended after no match is the first match. */
  lemma {:induction false} FindUserAppended(users: seq<User>, u: User, p: User -> bool)
    requires FindUser(users, p).None? && p(u)
    ensures FindUser(users + [u], p) == Some(|users|)
  {
    if users != [] {
      assert (users + [u])[1..] == users[1..] + [u];
      FindUserAppended(users[1..], u, p);
    }
  }

  /** `findOne({ username })`: the query value passes through the field's
      `trim` setter before it is compared. */
  function FindByUsername(users: seq<User>, username: string): (r: Option<nat>)
    ensures r.Some? ==> r.value < |users| && users[r.value].username == Trim(username)
    ensures r.Some? ==> forall k :: 0 <= k < r.value ==> users[k].username != Trim(username)
    ensures r.None? ==> forall k :: 0 <= k < |users| ==> users[k].username != Trim(username)
  {
    FindUser(users, (u: User) => u.username == Trim(username))
  }

  /** A verification email handed to the mailer: recipient, username, code. */
  datatype Mail = Mail(email: string, username: string, code: string)

  /** Lookups by username only see usernames. */
  lemma SameUsernamesSameLookup(a: seq<User>, b: seq<User>, username: string)
    requires |a| == |b| && forall i :: 0 <= i < |a| ==> a[i].username == b[i].username
    ensures FindByUsername(a, username) == FindByUsername(b, username)
  {
    SameVerdictsSameMatch(a, b, (u: User) => u.username == Trim(username));
  }

  /** The first match depends only on where the predicate holds. */
  lemma SameVerdictsSameMatch(a: seq<User>, b: seq<User>, p: User -> bool)
    requires |a| == |b| && forall i :: 0 <= i < |a| ==> p(a[i]) == p(b[i])
    ensures FindUser(a, p) == FindUser(b, p)
  {
    var ra, rb := FindUser(a, p), FindUser(b, p);
    if ra.Some? {
      assert p(b[ra.value]);
    }
    if rb.Some? {
      assert p(a[rb.value]);
    }
  }

  /** One hour in milliseconds (`setHours(getHours() + 1)`, 60 * 60 * 1000). */
  const HourMs := 3600000

  /** `Math.floor(100000 + Math.random() * 900000).toString()`, with the
      random draw given as a natural number reduced to one of the 900000
      possible outcomes: always six decimal digits. */
  function IssuedCode(draw: nat): (code: string)
    ensures |code| == 6
    ensures forall i :: 0 <= i < |code| ==> IsDigit(code[i])
  {
    var n := 100000 + draw % 900000;
    SixDigitCode(n);
    DecimalString(n)
  }

  /** An issued code reads back as a number from 100000 to 999999. */
  lemma IssuedCodeRange(draw: nat)
    ensures 100000 <= DecimalValue(IssuedCode(draw)) <= 999999
  {
    var n := 100000 + draw % 900000;
    assert IssuedCode(draw) == DecimalString(n);
    DecimalRoundTrip(n);
  }

  /** Every number from 100000 to 999999 is issued by some draw. */
  lemma IssuedCodeCovers(n: nat)
    requires 100000 <= n <= 999999
    ensures DecimalValue(IssuedCode(n - 100000)) == n
  {
    assert (n - 100000) % 900000 == n - 100000;
    assert IssuedCode(n - 100000) == DecimalString(n);
    DecimalRoundTrip(n);
  }

  /** Changing the fields no index covers keeps the indexes satisfied. */
  lemma UpdateKeepsUnique(users: seq<User>, k: nat, u: User)
    requires UniqueUsers(users) && k < |users|
    requires u.username == users[k].username && u.email == users[k].email && u.id == users[k].id
    ensures UniqueUsers(users[k := u])
  {
    var r := users[k := u];
    assert forall j :: 0 <= j < |r| ==> r[j].username == users[j].username && r[j].email == users[j].email && r[j].id == users[j].id;
  }
}
