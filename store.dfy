/** The in-memory stand-in for the application's Mongo database: the three
    collections the modelled handlers read and write, in insertion (natural)
    order, and the invariant their unique indexes maintain. */
module Store {
  import opened Models

  class Db {
    var posts: seq<Post>
    var feedbacks: seq<Feedback>
    var users: seq<User>

    /** Ids are unique in every collection, post links are unique, and
        usernames and emails are unique among users. */
    ghost predicate Valid()
      reads this
    {
      && DistinctPostIds(posts)
      && DistinctLinks(posts)
      && DistinctFeedbackIds(feedbacks)
      && UniqueUsers(users)
    }

    constructor ()
      ensures Valid()
      ensures posts == [] && feedbacks == [] && users == []
    {
      posts := [];
      feedbacks := [];
      users := [];
    }
  }
}
