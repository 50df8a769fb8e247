/** The dashboard's top posts (GET /api/dashboard/top-posts): of the
    signed-in user's posts, those with more than ten feedbacks, each
    labelled with its majority sentiment and an engagement tier, the five
    with the most feedback first. */
module TopPosts {
  import opened Common
  import opened Ordering
  import opened Models


  /** The label of a post's sentiment summary: a bucket that strictly
      exceeds both others, or Mixed when none does. */
  datatype Label = MostlyPositive | MostlyNegative | MostlyNeutral | Mixed

  function LabelName(l: Label): string
  {
    match l
    case MostlyPositive => "Positive"
    case MostlyNegative => "Negative"
    case MostlyNeutral => "Neutral"
    case Mixed => "Mixed"
  }

  datatype Engagement = Medium | High | VeryHigh

  function EngagementName(e: Engagement): string
  {
    match e
    case Medium => "Medium"
    case High => "High"
    case VeryHigh => "Very High"
  }

  datatype TopPost = TopPost(id: string, title: string, engagement: Engagement, sentiment: Label, feedbackCount: nat)

  datatype TopReply = TopReply(status: int, success: bool, message: Message, topPosts: seq<TopPost>)

  /** The positive, negative and neutral tests in the handler's order. */
  function Classify(s: SentimentSummary): Label
  {
    if s.positive > s.neutral && s.positive > s.negative then MostlyPositive
    else if s.negative > s.neutral && s.negative > s.positive then MostlyNegative
    else if s.neutral > s.positive && s.neutral > s.negative then MostlyNeutral
    else Mixed
  }

  /** Medium up to 50 feedbacks, High up to 100, Very High above. */
  function EngagementOf(count: nat): Engagement
  {
    if count > 50 && count <= 100 then High
    else if count > 100 then VeryHigh
    else Medium
  }

  /** A post makes the list when it is the user's and has more than ten
      feedbacks. */
  predicate Qualifies(p: Post, userId: string)
  {
    p.userId == userId && |p.feedbacks| > 10
  }

  function Summarize(p: Post): TopPost
  {
    TopPost(p.id, p.title, EngagementOf(|p.feedbacks|), Classify(p.sentimentSummary), |p.feedbacks|)
  }

  function SummarizeAll(ps: seq<Post>): (r: seq<TopPost>)
    ensures |r| == |ps| && forall i :: 0 <= i < |ps| ==> r[i] == Summarize(ps[i])
  {
    seq(|ps|, i requires 0 <= i < |ps| => Summarize(ps[i]))
  }

  function FeedbackCount(t: TopPost): int
  {
    t.feedbackCount
  }

  function Candidates(posts: seq<Post>, userId: string): (r: seq<Post>)
    ensures forall i :: 0 <= i < |r| ==> Qualifies(r[i], userId)
  {
    Filter(posts, (p: Post) => Qualifies(p, userId))
  }

  /** The handler as written. `populate("feedbacks", "_id")` follows the
      ref "feedbacks" of the Post schema, but the Feedback model is
      registered under the name "Feedback", so mongoose throws
      MissingSchemaError as soon as `find({ userId })` returns a document,
      and the catch block answers 500. With no document there is nothing to
      populate, and the ranking is computed. */
  function TopPostsOf(posts: seq<Post>, session: Option<string>): (r: TopReply)
    ensures r.status in {200, 401, 500}
    ensures r.success <==> r.status == 200
  {
    if session.None? then TopReply(401, false, NotAuthenticated, [])
    else if OwnPosts(posts, session.value) != [] then TopReply(500, false, TopPostsFailed, [])
    else TopReply(200, true, NoMessage, Ranked(posts, session.value))
  }

  /** The handler as evidently intended, with population resolving to the
      Feedback model: `find({ userId })`, then filter, map, a stable sort by
      feedbackCount descending, and `slice(0, 5)`. */
  function TopPostsIntended(posts: seq<Post>, session: Option<string>): (r: TopReply)
    ensures r.status in {200, 401}
    ensures r.success <==> r.status == 200
  {
    if session.None? then TopReply(401, false, NotAuthenticated, [])
    else TopReply(200, true, NoMessage, Ranked(posts, session.value))
  }

  function Ranked(posts: seq<Post>, userId: string): seq<TopPost>
  {
    Take(SortDesc(SummarizeAll(Candidates(posts, userId)), FeedbackCount), 5)
  }

  // ---------------------------------------------------------------------
  // Properties

  /** Each label holds exactly when its bucket strictly exceeds both
      others, and Mixed exactly when no bucket does. */
  lemma ClassifyIsStrictMajority(s: SentimentSummary)
    ensures Classify(s) == MostlyPositive <==> s.positive > s.neutral && s.positive > s.negative
    ensures Classify(s) == MostlyNegative <==> s.negative > s.neutral && s.negative > s.positive
    ensures Classify(s) == MostlyNeutral <==> s.neutral > s.positive && s.neutral > s.negative
    ensures Classify(s) == Mixed <==>
              !(s.positive > s.neutral && s.positive > s.negative)
              && !(s.negative > s.neutral && s.negative > s.positive)
              && !(s.neutral > s.positive && s.neutral > s.negative)
  {
  }

  /** At most one bucket can strictly exceed both others, so the order of
      the tests does not matter. */
  lemma AtMostOneMajority(s: SentimentSummary)
    ensures !((s.positive > s.neutral && s.positive > s.negative) && (s.negative > s.neutral && s.negative > s.positive))
    ensures !((s.positive > s.neutral && s.positive > s.negative) && (s.neutral > s.positive && s.neutral > s.negative))
    ensures !((s.negative > s.neutral && s.negative > s.positive) && (s.neutral > s.positive && s.neutral > s.negative))
  {
  }

  lemma EngagementTiers(count: nat)
    ensures EngagementOf(count) == VeryHigh <==> count > 100
    ensures EngagementOf(count) == High <==> 50 < count <= 100
    ensures EngagementOf(count) == Medium <==> count <= 50
  {
  }

  /** As written: 401 without a session, 500 for a user who owns any post,
      and 200 with an empty list only for a user who owns none. */
  lemma StatusIsAuthentication(posts: seq<Post>, session: Option<string>)
    ensures var r := TopPostsOf(posts, session);
            && (r.status == 401 <==> session.None?)
            && (r.status == 500 <==> session.Some? && OwnPosts(posts, session.value) != [])
            && (r.status == 200 <==> session.Some? && OwnPosts(posts, session.value) == [])
            && (r.status == 200 ==> r.topPosts == [])
            && (r.status != 200 ==> r.topPosts == [])
  {
    if session.Some? && OwnPosts(posts, session.value) == [] {
      NoOwnPostsNoCandidates(posts, session.value);
    }
  }

  /** A user who owns a post gets 500 from the handler as written, where the
      intended handler answers 200. */
  lemma OwnedPostFailsTopPosts(posts: seq<Post>, userId: string, k: nat)
    requires k < |posts| && posts[k].userId == userId
    ensures TopPostsOf(posts, Some(userId)).status == 500
    ensures TopPostsOf(posts, Some(userId)).message == TopPostsFailed
    ensures TopPostsIntended(posts, Some(userId)).status == 200
  {
    FilterKeeps(posts, (p: Post) => Own(p, userId), k);
  }

  /** As intended: 401 and no posts without a session, and otherwise 200
      with the ranking of the user's posts. */
  lemma IntendedStatusIsAuthentication(posts: seq<Post>, session: Option<string>)
    ensures var r := TopPostsIntended(posts, session);
            && (r.status == 401 <==> session.None?)
            && (r.status == 200 <==> session.Some?)
            && (session.None? ==> r.topPosts == [])
            && (session.Some? ==> r.topPosts == Ranked(posts, session.value))
  {
  }

  /** A user with no posts has no candidates. */
  lemma NoOwnPostsNoCandidates(posts: seq<Post>, userId: string)
    requires OwnPosts(posts, userId) == []
    ensures Candidates(posts, userId) == []
    ensures Ranked(posts, userId) == []
  {
    FilterMonotone(posts, (p: Post) => Qualifies(p, userId), (p: Post) => Own(p, userId));
  }

  /** The list holds at most five entries and as many as there are
      qualifying posts up to five, most feedback first. */
  lemma RankedShape(posts: seq<Post>, userId: string)
    ensures var r := Ranked(posts, userId);
            var n := |Candidates(posts, userId)|;
            && |r| == (if n < 5 then n else 5)
            && (forall i, j :: 0 <= i < j < |r| ==> r[i].feedbackCount >= r[j].feedbackCount)
  {
    var sorted := SortDesc(SummarizeAll(Candidates(posts, userId)), FeedbackCount);
    TakeKeepsLargest(sorted, 5, FeedbackCount);
  }

  /** t is the summary of one of the user's posts with more than ten
      feedbacks. */
  ghost predicate SummaryOfQualifying(t: TopPost, posts: seq<Post>, userId: string)
  {
    exists k :: 0 <= k < |posts| && Qualifies(posts[k], userId) && t == Summarize(posts[k])
  }

  /** Every entry is the summary of one of the user's posts with more than
      ten feedbacks, its count being the length of that post's list. */
  lemma RankedFromQualifying(posts: seq<Post>, userId: string)
    ensures var r := Ranked(posts, userId);
            forall i :: 0 <= i < |r| ==> SummaryOfQualifying(r[i], posts, userId)
  {
    var r := Ranked(posts, userId);
    forall i | 0 <= i < |r| ensures SummaryOfQualifying(r[i], posts, userId) {
      RankedEntryIsCandidate(posts, userId, i);
      SummaryOfCandidate(posts, userId, r[i]);
    }
  }

  lemma RankedEntryIsCandidate(posts: seq<Post>, userId: string, i: nat)
    requires i < |Ranked(posts, userId)|
    ensures Ranked(posts, userId)[i] in multiset(SummarizeAll(Candidates(posts, userId)))
  {
    var sorted := SortDesc(SummarizeAll(Candidates(posts, userId)), FeedbackCount);
    assert Ranked(posts, userId)[i] == sorted[i];
    assert sorted[i] in multiset(sorted);
  }

  /** A summary among the candidates' summaries is that of a qualifying post. */
  lemma SummaryOfCandidate(posts: seq<Post>, userId: string, t: TopPost)
    requires t in multiset(SummarizeAll(Candidates(posts, userId)))
    ensures SummaryOfQualifying(t, posts, userId)
  {
    var cands := Candidates(posts, userId);
    var all := SummarizeAll(cands);
    var m :| 0 <= m < |all| && all[m] == t;
    var p := cands[m];
    assert p in multiset(posts);
    var k :| 0 <= k < |posts| && posts[k] == p;
  }

  /** A qualifying post that is left out has no more feedback than any
      post that is listed. */
  lemma OmittedHaveNoMore(posts: seq<Post>, userId: string, k: nat)
    requires k < |posts| && Qualifies(posts[k], userId)
    ensures var r := Ranked(posts, userId);
            Summarize(posts[k]) in r || forall i :: 0 <= i < |r| ==> |posts[k].feedbacks| <= r[i].feedbackCount
  {
    var cands := Candidates(posts, userId);
    var all := SummarizeAll(cands);
    var sorted := SortDesc(all, FeedbackCount);
    var r := Ranked(posts, userId);
    CandidateKept(posts, userId, k);
    var m :| 0 <= m < |cands| && cands[m] == posts[k];
    assert all[m] == Summarize(posts[k]);
    assert Summarize(posts[k]) in multiset(sorted);
    var j :| 0 <= j < |sorted| && sorted[j] == Summarize(posts[k]);
    TakeKeepsLargest(sorted, 5, FeedbackCount);
    if j < |r| {
      assert r[j] == sorted[j];
    }
  }

  /** Every qualifying post is a candidate. */
  lemma CandidateKept(posts: seq<Post>, userId: string, k: nat)
    requires k < |posts| && Qualifies(posts[k], userId)
    ensures posts[k] in Candidates(posts, userId)
  {
    FilterKeeps(posts, (p: Post) => Qualifies(p, userId), k);
  }
}
