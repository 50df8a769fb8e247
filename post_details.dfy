/** The client-side vote updates of the post details view: the state is
    the loaded post (or none) and the list of its feedback; a post vote
    copies the server's like and dislike totals into the post, and a
    feedback vote adds one to the chosen counter of the voted feedback. */
module PostDetails {
  import opened Common
  import opened Models

  /** The post as the view holds it (its `Post` interface). */
  datatype ViewPost = ViewPost(id: string, title: string, description: string, likes: int, dislikes: int,
                               sentimentSummary: SentimentSummary)

  /** A feedback as the view holds it (its `Feedback` interface). */
  datatype ViewFeedback = ViewFeedback(id: string, content: string, voteCount: VoteCount)

  /** The totals in a truthy `votePost` response. */
  datatype Totals = Totals(likes: int, dislikes: int)

  /** The new post state, and whether `votePost` was called at all. */
  datatype PostVoteStep = PostVoteStep(post: Option<ViewPost>, requested: bool)

  /** `handlePostVote`: nothing happens without a loaded post; a falsy
      response (None, also what a failed request yields) changes nothing;
      otherwise likes and dislikes are taken from the response. */
  function HandlePostVote(post: Option<ViewPost>, response: Option<Totals>): (r: PostVoteStep)
    ensures r.requested <==> post.Some?
    ensures r.post.Some? <==> post.Some?
  {
    if post.None? then PostVoteStep(None, false)
    else if response.None? then PostVoteStep(post, true)
    else PostVoteStep(Some(post.value.(likes := response.value.likes, dislikes := response.value.dislikes)), true)
  }

  /** The counter change a feedback vote makes. */
  function Bump(c: VoteCount, vote: FeedbackVoteType): VoteCount
  {
    VoteCount(if vote == Upvote then c.upvotes + 1 else c.upvotes,
              if vote == Downvote then c.downvotes + 1 else c.downvotes)
  }

  /** `handleFeedbackVote`: with a truthy response, every feedback whose id
      is the voted one gets its counter bumped; the rest are kept. */
  function HandleFeedbackVote(feedbacks: seq<ViewFeedback>, feedbackId: string, vote: FeedbackVoteType, ok: bool): (r: seq<ViewFeedback>)
    ensures |r| == |feedbacks|
  {
    if !ok then feedbacks
    else seq(|feedbacks|, i requires 0 <= i < |feedbacks| =>
               if feedbacks[i].id == feedbackId then feedbacks[i].(voteCount := Bump(feedbacks[i].voteCount, vote))
               else feedbacks[i])
  }

  /** The "default" variant of the like and dislike buttons. */
  predicate LikeHighlighted(p: ViewPost)
  {
    p.likes > p.dislikes
  }

  predicate DislikeHighlighted(p: ViewPost)
  {
    p.dislikes > p.likes
  }

  // ---------------------------------------------------------------------
  // Properties

  /** Without a loaded post no request is made and the state stays empty. */
  lemma NoPostNoRequest(response: Option<Totals>)
    ensures HandlePostVote(None, response) == PostVoteStep(None, false)
  {
  }

  /** A post vote replaces likes and dislikes with the response's totals and
      keeps every other field; a falsy response keeps the post. */
  lemma PostVoteReplacesTotals(post: ViewPost, response: Option<Totals>)
    ensures var s := HandlePostVote(Some(post), response);
            && s.requested && s.post.Some?
            && var p := s.post.value;
            && p.id == post.id && p.title == post.title && p.description == post.description
            && p.sentimentSummary == post.sentimentSummary
            && (response.None? ==> p == post)
            && (response.Some? ==> p.likes == response.value.likes && p.dislikes == response.value.dislikes)
  {
  }

  /** A falsy feedback-vote response leaves the list untouched. */
  lemma FalsyResponseKeepsFeedback(feedbacks: seq<ViewFeedback>, feedbackId: string, vote: FeedbackVoteType)
    ensures HandleFeedbackVote(feedbacks, feedbackId, vote, false) == feedbacks
  {
  }

  /** Only the voted feedback changes, and only in the voted counter, by
      exactly one; order and length are kept. */
  lemma FeedbackVoteTouchesOnlyTarget(feedbacks: seq<ViewFeedback>, feedbackId: string, vote: FeedbackVoteType)
    ensures var r := HandleFeedbackVote(feedbacks, feedbackId, vote, true);
            && |r| == |feedbacks|
            && forall i :: 0 <= i < |r| ==>
                 && r[i].id == feedbacks[i].id && r[i].content == feedbacks[i].content
                 && (feedbacks[i].id != feedbackId ==> r[i] == feedbacks[i])
                 && (feedbacks[i].id == feedbackId && vote == Upvote ==>
                       r[i].voteCount == VoteCount(feedbacks[i].voteCount.upvotes + 1, feedbacks[i].voteCount.downvotes))
                 && (feedbacks[i].id == feedbackId && vote == Downvote ==>
                       r[i].voteCount == VoteCount(feedbacks[i].voteCount.upvotes, feedbacks[i].voteCount.downvotes + 1))
  {
  }

  /** Two feedback votes give the same list in either order. */
  lemma FeedbackVotesCommute(feedbacks: seq<ViewFeedback>, a: string, va: FeedbackVoteType, b: string, vb: FeedbackVoteType)
    ensures HandleFeedbackVote(HandleFeedbackVote(feedbacks, a, va, true), b, vb, true) ==
            HandleFeedbackVote(HandleFeedbackVote(feedbacks, b, vb, true), a, va, true)
  {
    var ab := HandleFeedbackVote(HandleFeedbackVote(feedbacks, a, va, true), b, vb, true);
    var ba := HandleFeedbackVote(HandleFeedbackVote(feedbacks, b, vb, true), a, va, true);
    forall i | 0 <= i < |feedbacks| ensures ab[i] == ba[i] {
      BumpsCommute(feedbacks[i].voteCount, va, vb);
    }
  }

  lemma BumpsCommute(c: VoteCount, x: FeedbackVoteType, y: FeedbackVoteType)
    ensures Bump(Bump(c, x), y) == Bump(Bump(c, y), x)
  {
  }

  /** The two buttons are never highlighted together, and with equal totals
      neither is. */
  lemma NeverBothHighlighted(p: ViewPost)
    ensures !(LikeHighlighted(p) && DislikeHighlighted(p))
    ensures p.likes == p.dislikes ==> !LikeHighlighted(p) && !DislikeHighlighted(p)
    ensures LikeHighlighted(p) <==> p.likes > p.dislikes
    ensures DislikeHighlighted(p) <==> p.dislikes > p.likes
  {
  }
}
