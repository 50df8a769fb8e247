/** The dashboard's counters (GET /api/dashboard/stats): how many posts the
    signed-in user has, how much feedback they received, the average per
    post, and how many of the posts are more than a week old. */
module Stats {
  import opened Common
  import opened Ordering
  import opened Models


  /** Seven days in milliseconds (`setDate(getDate() - 7)`). */
  const OneWeekMs := 604800000

  /** `totalFeedback / totalPosts` before `toFixed(2)`, or 0 over 1 when
      the user has no posts. */
  datatype Ratio = Ratio(numerator: nat, denominator: nat)

  datatype Counters = Counters(totalPosts: nat, totalFeedback: nat, averageEngagement: Ratio, weeklyGrowth: int)

  datatype StatsReply = StatsReply(status: int, success: bool, message: Message, stats: Option<Counters>)

  predicate OwnSince(p: Post, userId: string, since: int)
  {
    p.userId == userId && p.createdAt >= since
  }

  predicate OwnBefore(p: Post, userId: string, since: int)
  {
    p.userId == userId && p.createdAt < since
  }

  /** `userPosts.map((post) => post._id)`. */
  function Ids(ps: seq<Post>): (r: seq<string>)
    ensures |r| == |ps| && forall i :: 0 <= i < |ps| ==> r[i] == ps[i].id
  {
    seq(|ps|, i requires 0 <= i < |ps| => ps[i].id)
  }

  /** `FeedbackModel.countDocuments({ postId: { $in: postIds } })`. */
  function FeedbackOn(feedbacks: seq<Feedback>, ids: seq<string>): seq<Feedback>
  {
    Filter(feedbacks, (f: Feedback) => f.postId in ids)
  }

  /** What GET returns at time `now` (milliseconds). */
  function StatsOf(posts: seq<Post>, feedbacks: seq<Feedback>, session: Option<string>, now: int): (r: StatsReply)
    ensures r.status in {200, 401}
    ensures r.stats.Some? <==> r.status == 200
  {
    if session.None? then StatsReply(401, false, NotAuthenticated, None)
    else StatsReply(200, true, NoMessage, Some(Count(posts, feedbacks, session.value, now)))
  }

  function Count(posts: seq<Post>, feedbacks: seq<Feedback>, userId: string, now: int): (c: Counters)
    ensures c.averageEngagement.denominator > 0
    ensures c.totalFeedback <= |feedbacks|
  {
    var totalPosts := |OwnPosts(posts, userId)|;
    var totalFeedback := |FeedbackOn(feedbacks, Ids(OwnPosts(posts, userId)))|;
    var average := if totalPosts > 0 then Ratio(totalFeedback, totalPosts) else Ratio(0, 1);
    var weeklyPosts := |Filter(posts, (p: Post) => OwnSince(p, userId, now - OneWeekMs))|;
    Counters(totalPosts, totalFeedback, average, totalPosts - weeklyPosts)
  }

  // ---------------------------------------------------------------------
  // Properties

  lemma StatusIsAuthentication(posts: seq<Post>, feedbacks: seq<Feedback>, session: Option<string>, now: int)
    ensures StatsOf(posts, feedbacks, session, now).status == (if session.None? then 401 else 200)
    ensures StatsOf(posts, feedbacks, session, now).stats.Some? <==> session.Some?
  {
  }

  /** The average never divides by zero: with no posts it is 0, and
      otherwise it is the feedback count over the post count. */
  lemma AverageIsGuarded(posts: seq<Post>, feedbacks: seq<Feedback>, userId: string, now: int)
    ensures var c := Count(posts, feedbacks, userId, now);
            && c.averageEngagement.denominator > 0
            && (c.totalPosts == 0 ==> c.averageEngagement.numerator == 0)
            && (c.totalPosts > 0 ==> c.averageEngagement == Ratio(c.totalFeedback, c.totalPosts))
  {
  }

  /** weeklyGrowth is the number of the user's posts created more than a
      week ago, so it is never negative. */
  lemma WeeklyGrowthCountsOlderPosts(posts: seq<Post>, feedbacks: seq<Feedback>, userId: string, now: int)
    ensures var c := Count(posts, feedbacks, userId, now);
            && c.weeklyGrowth == |Filter(posts, (p: Post) => OwnBefore(p, userId, now - OneWeekMs))|
            && c.weeklyGrowth >= 0
  {
    var since := now - OneWeekMs;
    FilterCountDisjoint(posts, (p: Post) => Own(p, userId),
                        (p: Post) => OwnSince(p, userId, since), (p: Post) => OwnBefore(p, userId, since));
  }

  /** A user with no posts has no feedback counted. */
  lemma NoPostsNoFeedback(posts: seq<Post>, feedbacks: seq<Feedback>, userId: string, now: int)
    requires OwnPosts(posts, userId) == []
    ensures Count(posts, feedbacks, userId, now).totalFeedback == 0
  {
    FilterNone(feedbacks, (f: Feedback) => f.postId in Ids(OwnPosts(posts, userId)));
  }

  /** Per-post reference count: the feedback on each id, added up. */
  function PerPost(feedbacks: seq<Feedback>, ids: seq<string>): nat
  {
    if ids == [] then 0
    else PerPost(feedbacks, ids[..|ids| - 1]) + |FeedbacksOf(feedbacks, ids[|ids| - 1])|
  }

  /** Over distinct ids, the `$in` count is the sum of the per-post counts:
      every feedback on one of the user's posts is counted exactly once. */
  lemma {:induction false} FeedbackOnIsPerPostSum(feedbacks: seq<Feedback>, ids: seq<string>)
    requires forall i, j :: 0 <= i < j < |ids| ==> ids[i] != ids[j]
    ensures |FeedbackOn(feedbacks, ids)| == PerPost(feedbacks, ids)
  {
    if ids == [] {
      FilterNone(feedbacks, (f: Feedback) => f.postId in ids);
    } else {
      var front, last := ids[..|ids| - 1], ids[|ids| - 1];
      assert ids == front + [last];
      assert last !in front;
      FeedbackOnIsPerPostSum(feedbacks, front);
      FilterCountDisjoint(feedbacks, (f: Feedback) => f.postId in ids,
                          (f: Feedback) => f.postId in front, (f: Feedback) => f.postId == last);
    }
  }

  /** totalFeedback is the per-post sum over the user's posts, when post ids
      are distinct. */
  lemma TotalFeedbackIsPerPostSum(posts: seq<Post>, feedbacks: seq<Feedback>, userId: string, now: int)
    requires DistinctPostIds(posts)
    ensures Count(posts, feedbacks, userId, now).totalFeedback == PerPost(feedbacks, Ids(OwnPosts(posts, userId)))
  {
    var own := OwnPosts(posts, userId);
    FilterDistinct(posts, (p: Post) => Own(p, userId));
    FeedbackOnIsPerPostSum(feedbacks, Ids(own));
  }

  /** Filtering keeps ids distinct. */
  lemma {:induction false} FilterDistinct(posts: seq<Post>, p: Post -> bool)
    requires DistinctPostIds(posts)
    ensures DistinctPostIds(Filter(posts, p))
  {
    if posts != [] {
      FilterDistinct(posts[1..], p);
      var rest := Filter(posts[1..], p);
      forall j | 0 <= j < |rest| ensures rest[j].id != posts[0].id {
        assert rest[j] in multiset(posts[1..]);
        var m :| 0 <= m < |posts[1..]| && posts[1..][m] == rest[j];
        assert posts[m + 1] == rest[j];
      }
    }
  }

  /** Posts that agree on ids and owners list the same ids for every user. */
  lemma {:induction false} SameKeysSameIds(a: seq<Post>, b: seq<Post>, userId: string)
    requires |a| == |b| && forall i :: 0 <= i < |a| ==> a[i].id == b[i].id && a[i].userId == b[i].userId
    ensures Ids(OwnPosts(a, userId)) == Ids(OwnPosts(b, userId))
  {
    if a != [] {
      SameKeysSameIds(a[1..], b[1..], userId);
      OwnIdsUnfold(a, userId);
      OwnIdsUnfold(b, userId);
    }
  }

  /** The user's ids of a nonempty list: the head's id when it is the user's,
      then the ids of the rest. */
  lemma OwnIdsUnfold(a: seq<Post>, userId: string)
    requires a != []
    ensures Ids(OwnPosts(a, userId)) == (if Own(a[0], userId) then [a[0].id] else []) + Ids(OwnPosts(a[1..], userId))
  {
    var rest := OwnPosts(a[1..], userId);
    assert OwnPosts(a, userId) == (if Own(a[0], userId) then [a[0]] else []) + rest;
    assert Ids((if Own(a[0], userId) then [a[0]] else []) + rest) == (if Own(a[0], userId) then [a[0].id] else []) + Ids(rest);
  }

  /** Storing one feedback on the k-th post, while every post keeps its id
      and owner (what a successful submission does), counts once toward the
      totalFeedback of the post's owner and toward nobody else's; the post
      counts do not move. */
  lemma AppendedFeedbackCounts(posts: seq<Post>, posts': seq<Post>, feedbacks: seq<Feedback>, f: Feedback, k: nat, userId: string, now: int)
    requires DistinctPostIds(posts)
    requires k < |posts| && f.postId == posts[k].id
    requires |posts'| == |posts| && forall i :: 0 <= i < |posts| ==> posts'[i].id == posts[i].id && posts'[i].userId == posts[i].userId
    ensures Count(posts', feedbacks + [f], userId, now).totalPosts == Count(posts, feedbacks, userId, now).totalPosts
    ensures Count(posts', feedbacks + [f], userId, now).totalFeedback ==
            Count(posts, feedbacks, userId, now).totalFeedback + (if posts[k].userId == userId then 1 else 0)
  {
    SameKeysSameIds(posts', posts, userId);
    SamePostCount(posts', posts, userId);
    var ids := Ids(OwnPosts(posts, userId));
    FilterAppend(feedbacks, f, (g: Feedback) => g.postId in ids);
    OwnerListsId(posts, k, userId);
  }

  /** The k-th post's id is among a user's ids exactly when the user owns it. */
  lemma OwnerListsId(posts: seq<Post>, k: nat, userId: string)
    requires DistinctPostIds(posts) && k < |posts|
    ensures posts[k].id in Ids(OwnPosts(posts, userId)) <==> posts[k].userId == userId
  {
    if posts[k].userId == userId {
      OwnIdListed(posts, k, userId);
    } else {
      forall j | 0 <= j < |Ids(OwnPosts(posts, userId))| ensures Ids(OwnPosts(posts, userId))[j] != posts[k].id {
        OtherIdNotListed(posts, k, userId, j);
      }
    }
  }

  lemma OwnIdListed(posts: seq<Post>, k: nat, userId: string)
    requires k < |posts| && posts[k].userId == userId
    ensures posts[k].id in Ids(OwnPosts(posts, userId))
  {
    var own := OwnPosts(posts, userId);
    FilterKeeps(posts, (p: Post) => Own(p, userId), k);
    var j :| 0 <= j < |own| && own[j] == posts[k];
    assert Ids(own)[j] == posts[k].id;
  }

  lemma OtherIdNotListed(posts: seq<Post>, k: nat, userId: string, j: nat)
    requires DistinctPostIds(posts) && k < |posts| && posts[k].userId != userId
    requires j < |Ids(OwnPosts(posts, userId))|
    ensures Ids(OwnPosts(posts, userId))[j] != posts[k].id
  {
    var own := OwnPosts(posts, userId);
    assert own[j] in multiset(posts);
    var m :| 0 <= m < |posts| && posts[m] == own[j];
    assert posts[m].userId == userId;
    assert Ids(own)[j] == posts[m].id;
  }

  lemma {:induction false} SamePostCount(a: seq<Post>, b: seq<Post>, userId: string)
    requires |a| == |b| && forall i :: 0 <= i < |a| ==> a[i].id == b[i].id && a[i].userId == b[i].userId
    ensures |OwnPosts(a, userId)| == |OwnPosts(b, userId)|
  {
    SameKeysSameIds(a, b, userId);
  }
}
