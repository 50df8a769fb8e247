/** The dashboard's recent posts (GET /api/dashboard/recent-posts): the
    signed-in user's posts of the last fourteen days, newest first and at
    most five, or the single newest post when there is none that recent;
    each with its feedback count and a sentiment label. */
module RecentPosts {
  import opened Common
  import opened Ordering
  import opened Models
  import TopPosts


  /** Fourteen days in milliseconds (`setDate(getDate() - 14)`). */
  const TwoWeeksMs := 1209600000

  /** This route's labels: a strictly larger positive or negative bucket,
      and Neutral otherwise. */
  datatype Label = LeansPositive | LeansNegative | Undecided

  function LabelName(l: Label): string
  {
    match l
    case LeansPositive => "Positive"
    case LeansNegative => "Negative"
    case Undecided => "Neutral"
  }

  datatype RecentPost = RecentPost(id: string, title: string, engagement: nat, sentiment: Label)

  datatype RecentReply = RecentReply(status: int, success: bool, message: Message, recentPosts: seq<RecentPost>)

  function Classify(s: SentimentSummary): Label
  {
    if s.positive > s.neutral && s.positive > s.negative then LeansPositive
    else if s.negative > s.neutral && s.negative > s.positive then LeansNegative
    else Undecided
  }

  function Describe(p: Post): RecentPost
  {
    RecentPost(p.id, p.title, |p.feedbacks|, Classify(p.sentimentSummary))
  }

  function DescribeAll(ps: seq<Post>): (r: seq<RecentPost>)
    ensures |r| == |ps| && forall i :: 0 <= i < |ps| ==> r[i] == Describe(ps[i])
  {
    seq(|ps|, i requires 0 <= i < |ps| => Describe(ps[i]))
  }

  /** `createdAt: { $gte: twoWeeksAgo }` for the user's posts. */
  predicate InWindow(p: Post, userId: string, now: int)
  {
    p.userId == userId && p.createdAt >= now - TwoWeeksMs
  }

  function WindowPosts(posts: seq<Post>, userId: string, now: int): (r: seq<Post>)
    ensures forall i :: 0 <= i < |r| ==> InWindow(r[i], userId, now)
  {
    Filter(posts, (p: Post) => InWindow(p, userId, now))
  }

  /** The posts the handler describes: the window query sorted newest first
      with limit 5, or, when that is empty, the newest post with limit 1. */
  function Selected(posts: seq<Post>, userId: string, now: int): seq<Post>
  {
    var recent := Take(SortDesc(WindowPosts(posts, userId, now), CreatedAt), 5);
    if recent == [] then Take(SortDesc(OwnPosts(posts, userId), CreatedAt), 1) else recent
  }

  /** The handler as written at time `now` (milliseconds). Both queries
      `populate("feedbacks", "_id")` through the ref "feedbacks", under
      which no model is registered (the Feedback model is "Feedback"), so a
      query that returns a document throws MissingSchemaError and the catch
      block answers 500. Only a user without posts gets 200. */
  function RecentPostsOf(posts: seq<Post>, session: Option<string>, now: int): (r: RecentReply)
    ensures r.status in {200, 401, 500}
    ensures r.success <==> r.status == 200
  {
    if session.None? then RecentReply(401, false, NotAuthenticated, [])
    else
      var recent := Take(SortDesc(WindowPosts(posts, session.value, now), CreatedAt), 5);
      if recent != [] then RecentReply(500, false, RecentPostsFailed, [])
      else
        var latest := Take(SortDesc(OwnPosts(posts, session.value), CreatedAt), 1);
        if latest != [] then RecentReply(500, false, RecentPostsFailed, [])
        else RecentReply(200, true, NoMessage, DescribeAll(latest))
  }

  /** The handler as evidently intended, with population resolving to the
      Feedback model: the selected posts, each described. */
  function RecentPostsIntended(posts: seq<Post>, session: Option<string>, now: int): (r: RecentReply)
    ensures r.status in {200, 401}
    ensures r.success <==> r.status == 200
  {
    if session.None? then RecentReply(401, false, NotAuthenticated, [])
    else RecentReply(200, true, NoMessage, DescribeAll(Selected(posts, session.value, now)))
  }

  // ---------------------------------------------------------------------
  // Properties

  /** A positive or negative label exactly when that bucket strictly
      exceeds both others, and Neutral otherwise. */
  lemma ClassifyLeans(s: SentimentSummary)
    ensures Classify(s) == LeansPositive <==> s.positive > s.neutral && s.positive > s.negative
    ensures Classify(s) == LeansNegative <==> s.negative > s.neutral && s.negative > s.positive
    ensures Classify(s) == Undecided <==>
              !(s.positive > s.neutral && s.positive > s.negative) && !(s.negative > s.neutral && s.negative > s.positive)
  {
  }

  /** This route reports Neutral where the top-posts route reports Neutral
      or Mixed, and agrees with it on Positive and Negative. */
  lemma LabellingsAgree(s: SentimentSummary)
    ensures LabelName(Classify(s)) == TopPosts.LabelName(TopPosts.Classify(s)) ||
            (Classify(s) == Undecided && TopPosts.Classify(s) == TopPosts.Mixed)
    ensures TopPosts.Classify(s) == TopPosts.MostlyNeutral ==> Classify(s) == Undecided
  {
  }

  /** As written: 401 without a session, 500 for a user who owns any post,
      and 200 with an empty list only for a user who owns none. */
  lemma StatusIsAuthentication(posts: seq<Post>, session: Option<string>, now: int)
    ensures var r := RecentPostsOf(posts, session, now);
            && (r.status == 401 <==> session.None?)
            && (r.status == 500 <==> session.Some? && OwnPosts(posts, session.value) != [])
            && (r.status == 200 <==> session.Some? && OwnPosts(posts, session.value) == [])
            && r.recentPosts == []
  {
    if session.Some? {
      var u := session.value;
      NewestOwnPost(posts, u);
      FilterMonotone(posts, (p: Post) => InWindow(p, u, now), (p: Post) => Own(p, u));
    }
  }

  /** A user who owns a post gets 500 from the handler as written, where the
      intended handler answers 200 with a nonempty list. */
  lemma OwnedPostFailsRecentPosts(posts: seq<Post>, userId: string, now: int, k: nat)
    requires k < |posts| && posts[k].userId == userId
    ensures RecentPostsOf(posts, Some(userId), now).status == 500
    ensures RecentPostsOf(posts, Some(userId), now).message == RecentPostsFailed
    ensures RecentPostsIntended(posts, Some(userId), now).status == 200
    ensures RecentPostsIntended(posts, Some(userId), now).recentPosts != []
  {
    FilterKeeps(posts, (p: Post) => Own(p, userId), k);
    StatusIsAuthentication(posts, Some(userId), now);
    if WindowPosts(posts, userId, now) != [] {
      WindowSelection(posts, userId, now);
    } else {
      FallbackIsNewest(posts, userId, now);
    }
  }

  /** As intended: 401 and no posts without a session, and otherwise 200
      with the selection described. */
  lemma IntendedStatusIsAuthentication(posts: seq<Post>, session: Option<string>, now: int)
    ensures var r := RecentPostsIntended(posts, session, now);
            && (r.status == 401 <==> session.None?)
            && (r.status == 200 <==> session.Some?)
            && (session.None? ==> r.recentPosts == [])
  {
  }

  /** The reply describes the selected posts one for one, in order, with
      each post's feedback count as its engagement. */
  lemma RepliesDescribeSelection(posts: seq<Post>, userId: string, now: int)
    ensures var r := RecentPostsIntended(posts, Some(userId), now).recentPosts;
            var s := Selected(posts, userId, now);
            |r| == |s| && forall i :: 0 <= i < |r| ==> r[i].id == s[i].id && r[i].engagement == |s[i].feedbacks|
  {
  }

  /** When some post of the user's is in the window, the selection is the
      newest of them, at most five, newest first, all in the window. */
  lemma WindowSelection(posts: seq<Post>, userId: string, now: int)
    requires WindowPosts(posts, userId, now) != []
    ensures var s := Selected(posts, userId, now);
            && 1 <= |s| <= 5
            && (forall i :: 0 <= i < |s| ==> s[i] in WindowPosts(posts, userId, now))
            && (forall i, j :: 0 <= i < j < |s| ==> s[i].createdAt >= s[j].createdAt)
  {
    var sorted := SortDesc(WindowPosts(posts, userId, now), CreatedAt);
    TakeKeepsLargest(sorted, 5, CreatedAt);
    var s := Take(sorted, 5);
    forall i | 0 <= i < |s| ensures s[i] in WindowPosts(posts, userId, now) {
      assert s[i] == sorted[i];
      assert s[i] in multiset(sorted);
    }
  }

  /** None of the window's posts left out is newer than a selected one. */
  lemma WindowKeepsNewest(posts: seq<Post>, userId: string, now: int, k: nat)
    requires k < |posts| && InWindow(posts[k], userId, now)
    ensures var s := Selected(posts, userId, now);
            posts[k] in s || forall i :: 0 <= i < |s| ==> posts[k].createdAt <= s[i].createdAt
  {
    var w := WindowPosts(posts, userId, now);
    FilterKeeps(posts, (p: Post) => InWindow(p, userId, now), k);
    var sorted := SortDesc(w, CreatedAt);
    assert posts[k] in multiset(sorted);
    var j :| 0 <= j < |sorted| && sorted[j] == posts[k];
    TakeKeepsLargest(sorted, 5, CreatedAt);
    var recent := Take(sorted, 5);
    assert recent != [];
    if j < |recent| {
      assert recent[j] == sorted[j];
    }
  }

  /** When none of the user's posts is in the window, the selection is
      the user's newest post, or empty when the user has no posts. */
  lemma FallbackIsNewest(posts: seq<Post>, userId: string, now: int)
    requires WindowPosts(posts, userId, now) == []
    ensures var s := Selected(posts, userId, now);
            && |s| <= 1
            && (s == [] <==> OwnPosts(posts, userId) == [])
            && (s != [] ==> (Own(s[0], userId) && s[0] in posts &&
                             forall k :: 0 <= k < |posts| && Own(posts[k], userId) ==> posts[k].createdAt <= s[0].createdAt))
  {
    assert Take(SortDesc(WindowPosts(posts, userId, now), CreatedAt), 5) == [];
    NewestOwnPost(posts, userId);
  }

  lemma NewestOwnPost(posts: seq<Post>, userId: string)
    ensures var s := Take(SortDesc(OwnPosts(posts, userId), CreatedAt), 1);
            && |s| <= 1
            && (s == [] <==> OwnPosts(posts, userId) == [])
            && (s != [] ==> (Own(s[0], userId) && s[0] in posts &&
                             forall k :: 0 <= k < |posts| && Own(posts[k], userId) ==> posts[k].createdAt <= s[0].createdAt))
  {
    var own := OwnPosts(posts, userId);
    var sorted := SortDesc(own, CreatedAt);
    var s := Take(sorted, 1);
    if s != [] {
      assert s[0] == sorted[0];
      assert s[0] in multiset(own);
      assert s[0] in multiset(posts);
      forall k | 0 <= k < |posts| && Own(posts[k], userId) ensures posts[k].createdAt <= s[0].createdAt {
        FilterKeeps(posts, (p: Post) => Own(p, userId), k);
        assert posts[k] in multiset(sorted);
        var j :| 0 <= j < |sorted| && sorted[j] == posts[k];
        assert CreatedAt(sorted[0]) >= CreatedAt(sorted[j]);
      }
    }
  }
}
