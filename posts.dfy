/** The owner's post endpoints (/api/posts): POST validates the body, saves
    a new post, then sets its public link to `${APP_URL}/feedbacks/<id>` and
    saves again; GET lists the owner's posts newest first, optionally
    filtered by a case-insensitive pattern on title or description, one
    page at a time, with pagination metadata. */
module Posts {
  import opened Common
  import opened Ordering
  import opened Models
  import opened Schemas
  import opened Store


  // ---------------------------------------------------------------------
  // POST /api/posts

  /** The ObjectId and timestamp mongoose assigns to the new post, and the
      APP_URL environment variable as the template string renders it. */
  datatype CreateEnv = CreateEnv(newId: string, now: int, appUrl: string)

  /** The reply: `errors` lists zod's messages on a 400, `post` is the saved
      post on a 201, and `error` is the mongoose error text on a 500 (None
      when the request body is not JSON, whose parser message is not
      modelled). */
  datatype CreateReply = CreateReply(
    status: int,
    success: bool,
    message: Message,
    errors: seq<string>,
    post: Option<Post>,
    error: Option<string>)

  datatype CreateOutcome = CreateOutcome(reply: CreateReply, posts: seq<Post>)

  function CreateFailure(status: int, message: Message, errors: seq<string>, error: Option<string>): CreateReply
  {
    CreateReply(status, false, message, errors, None, error)
  }

  /** `description || null`: an absent or empty description is stored as null. */
  function NullIfEmpty(d: Option<string>): (r: Option<string>)
    ensures r.None? <==> d.None? || d.value == []
    ensures r.Some? ==> r == d
  {
    if d.Some? && d.value != [] then d else None
  }

  /** `${process.env.APP_URL}/feedbacks/${newPost._id}`. */
  function LinkFor(appUrl: string, id: string): string
  {
    appUrl + "/feedbacks/" + id
  }

  /** What POST does, as a function of the posts collection and the signed-in
      user's id (None without a session). */
  function CreatePost(posts: seq<Post>, session: Option<string>, body: Option<Json>, env: CreateEnv): (o: CreateOutcome)
    ensures |o.posts| == |posts| || |o.posts| == |posts| + 1
  {
    if session.None? then CreateOutcome(CreateFailure(401, NotAuthenticated, [], None), posts)
    else if body.None? then CreateOutcome(CreateFailure(500, PostCreateFailed, [], None), posts)
    else
      var parsed := ParsePost(body.value);
      if parsed.Invalid? then CreateOutcome(CreateFailure(400, ValidationError, parsed.messages, None), posts)
      else SaveOutcome(posts, session.value, parsed.data, env)
  }

  /** The two saves: the first stores the post without a link, the second
      sets the link. A failure of the second save leaves the first one in
      the collection. */
  function SaveOutcome(posts: seq<Post>, userId: string, input: PostInput, env: CreateEnv): (o: CreateOutcome)
    ensures |o.posts| == |posts| || |o.posts| == |posts| + 1
  {
    var p := NewPost(env.newId, userId, input.title, NullIfEmpty(input.description), env.now);
    if p.Err? then CreateOutcome(CreateFailure(500, PostCreateFailed, [], Some(p.error)), posts)
    else
      var first := InsertPost(posts, p.value);
      if first.Err? then CreateOutcome(CreateFailure(500, PostCreateFailed, [], Some(first.error)), posts)
      else
        var link := LinkFor(env.appUrl, p.value.id);
        var second := SetLink(first.value, |posts|, link);
        if second.Err? then CreateOutcome(CreateFailure(500, PostCreateFailed, [], Some(second.error)), first.value)
        else CreateOutcome(CreateReply(201, true, PostCreated, [], Some(p.value.(link := Some(link))), None), second.value)
  }

  /** The handler over the store, one save at a time. */
  method Create(db: Db, session: Option<string>, body: Option<Json>, env: CreateEnv) returns (reply: CreateReply)
    requires db.Valid()
    modifies db
    ensures db.Valid()
    ensures var o := CreatePost(old(db.posts), session, body, env);
            reply == o.reply && db.posts == o.posts
    ensures db.feedbacks == old(db.feedbacks) && db.users == old(db.users)
  {
    if session.None? {
      return CreateFailure(401, NotAuthenticated, [], None);
    }
    if body.None? {
      return CreateFailure(500, PostCreateFailed, [], None);
    }
    var parsed := ParsePost(body.value);
    if parsed.Invalid? {
      return CreateFailure(400, ValidationError, parsed.messages, None);
    }
    var post := NewPost(env.newId, session.value, parsed.data.title, NullIfEmpty(parsed.data.description), env.now);
    if post.Err? {
      return CreateFailure(500, PostCreateFailed, [], Some(post.error));
    }
    var k := |db.posts|;
    var saved := InsertPost(db.posts, post.value);
    if saved.Err? {
      return CreateFailure(500, PostCreateFailed, [], Some(saved.error));
    }
    db.posts := saved.value;
    var link := LinkFor(env.appUrl, post.value.id);
    var resaved := SetLink(db.posts, k, link);
    if resaved.Err? {
      return CreateFailure(500, PostCreateFailed, [], Some(resaved.error));
    }
    db.posts := resaved.value;
    reply := CreateReply(201, true, PostCreated, [], Some(post.value.(link := Some(link))), None);
  }

  // ---------------------------------------------------------------------
  // Properties of POST

  /** A post is created exactly when there is a session, the body is an
      object with a string title that is not blank and an optional string
      description, the new id is unused, no stored post lacks a link (a
      missing link counts as null in the unique index) and no stored post
      already has the new link. */
  lemma CreatedIff(posts: seq<Post>, session: Option<string>, body: Option<Json>, env: CreateEnv)
    ensures CreatePost(posts, session, body, env).reply.status == 201 <==>
            && session.Some? && body.Some? && ParsePost(body.value).Valid?
            && Trim(ParsePost(body.value).data.title) != []
            && (forall i :: 0 <= i < |posts| ==> posts[i].id != env.newId && posts[i].link.Some?)
            && (forall i :: 0 <= i < |posts| ==> posts[i].link != Some(LinkFor(env.appUrl, env.newId)))
  {
    if session.Some? && body.Some? && ParsePost(body.value).Valid? {
      SaveIff(posts, session.value, ParsePost(body.value).data, env);
    }
  }

  lemma SaveIff(posts: seq<Post>, userId: string, input: PostInput, env: CreateEnv)
    ensures SaveOutcome(posts, userId, input, env).reply.status == 201 <==>
            && Trim(input.title) != []
            && (forall i :: 0 <= i < |posts| ==> posts[i].id != env.newId && posts[i].link.Some?)
            && (forall i :: 0 <= i < |posts| ==> posts[i].link != Some(LinkFor(env.appUrl, env.newId)))
  {
    var p := NewPost(env.newId, userId, input.title, NullIfEmpty(input.description), env.now);
    if p.Ok? {
      var first := InsertPost(posts, p.value);
      if first.Ok? {
        var link := LinkFor(env.appUrl, p.value.id);
        assert first.value == posts + [p.value];
        assert SaveOutcome(posts, userId, input, env).reply.status == 201 <==> SetLink(first.value, |posts|, link).Ok?;
        assert forall i :: 0 <= i < |posts| ==> first.value[i] == posts[i];
        assert first.value[|posts|].link.None?;
      }
    }
  }

  /** A created post is the last one in the collection and the one in the
      reply: owned by the session's user, the title trimmed, a description
      that was absent or empty stored as null and any other one trimmed,
      no votes or feedback yet, open to feedback, and its link built from
      APP_URL and its own id. Nothing else in the collection changes. */
  lemma CreatedPostIsStored(posts: seq<Post>, session: Option<string>, body: Option<Json>, env: CreateEnv)
    requires CreatePost(posts, session, body, env).reply.status == 201
    ensures var o := CreatePost(posts, session, body, env);
            && o.reply.post.Some?
            && o.posts == posts + [o.reply.post.value]
            && StoredPost(o.reply.post.value, session.value, ParsePost(body.value).data, env)
  {
    SavedPostIsStored(posts, session.value, ParsePost(body.value).data, env);
  }

  /** The fields of a post created from `input` for `userId`. */
  ghost predicate StoredPost(p: Post, userId: string, input: PostInput, env: CreateEnv)
  {
    && p.id == env.newId && p.userId == userId && p.createdAt == env.now
    && p.link == Some(LinkFor(env.appUrl, env.newId))
    && p.title == Trim(input.title)
    && (input.description.None? || input.description.value == [] ==> p.description.None?)
    && (input.description.Some? && input.description.value != [] ==> p.description == Some(Trim(input.description.value)))
    && p.likes == 0 && p.dislikes == 0 && p.feedbacks == [] && p.isAcceptingFeedback
  }

  lemma SavedPostIsStored(posts: seq<Post>, userId: string, input: PostInput, env: CreateEnv)
    requires SaveOutcome(posts, userId, input, env).reply.status == 201
    ensures var o := SaveOutcome(posts, userId, input, env);
            && o.reply.post.Some?
            && o.posts == posts + [o.reply.post.value]
            && StoredPost(o.reply.post.value, userId, input, env)
  {
    var p := NewPost(env.newId, userId, input.title, NullIfEmpty(input.description), env.now).value;
    var link := LinkFor(env.appUrl, p.id);
    var first := posts + [p];
    assert first[|posts| := first[|posts|].(link := Some(link))] == posts + [p.(link := Some(link))];
  }

  /** Every failed request leaves the collection as it was, except when the
      second save fails: that leaves the new post stored without a link. */
  lemma FailureKeepsPosts(posts: seq<Post>, session: Option<string>, body: Option<Json>, env: CreateEnv)
    ensures var o := CreatePost(posts, session, body, env);
            o.reply.status != 201 ==>
              !o.reply.success && o.reply.status in {400, 401, 500} &&
              (o.posts == posts ||
               (o.reply.status == 500 && |o.posts| == |posts| + 1 && o.posts[..|posts|] == posts && o.posts[|posts|].link.None?))
  {
    if session.Some? && body.Some? && ParsePost(body.value).Valid? {
      var input := ParsePost(body.value).data;
      var p := NewPost(env.newId, session.value, input.title, NullIfEmpty(input.description), env.now);
      if p.Ok? && InsertPost(posts, p.value).Ok? {
        assert (posts + [p.value])[..|posts|] == posts;
      }
    }
  }

  /** A post left without a link blocks every later creation: the first
      save of a new post would be a second document without a link. */
  lemma LinklessPostBlocksCreation(posts: seq<Post>, session: Option<string>, body: Option<Json>, env: CreateEnv, k: nat)
    requires k < |posts| && posts[k].link.None?
    ensures CreatePost(posts, session, body, env).reply.status != 201
    ensures CreatePost(posts, session, body, env).posts == posts
  {
    CreatedIff(posts, session, body, env);
    if session.Some? && body.Some? && ParsePost(body.value).Valid? {
      var input := ParsePost(body.value).data;
      var p := NewPost(env.newId, session.value, input.title, NullIfEmpty(input.description), env.now);
      if p.Ok? {
        assert posts[k].link == p.value.link;
      }
    }
  }

  // ---------------------------------------------------------------------
  // GET /api/posts

  /** The query string: `search`, `page` and `limit`, None when absent. */
  datatype Query = Query(search: Option<string>, page: Option<string>, limit: Option<string>)

  /** Mongo's `$regex` with option "i": whether a pattern compiles, and
      whether it matches a text case-insensitively. */
  datatype Regex = Regex(compiles: string -> bool, matches: (string, string) -> bool)

  /** The fields `.select(...)` keeps. */
  datatype Summary = Summary(
    id: string,
    title: string,
    description: Option<string>,
    likes: int,
    dislikes: int,
    isAcceptingFeedback: bool,
    createdAt: int)

  /** None for totalPages is JSON null: `Math.ceil` of a division by zero. */
  datatype Pagination = Pagination(currentPage: int, totalPages: Option<int>, totalPosts: nat)

  /** `message` is empty on a 200, which carries posts and pagination. */
  datatype ListReply = ListReply(status: int, success: bool, message: Message, posts: seq<Summary>, pagination: Option<Pagination>)

  function ListFailure(status: int, message: Message): ListReply
  {
    ListReply(status, false, message, [], None)
  }

  function Select(p: Post): Summary
  {
    Summary(p.id, p.title, p.description, p.likes, p.dislikes, p.isAcceptingFeedback, p.createdAt)
  }

  function SelectAll(ps: seq<Post>): (r: seq<Summary>)
    ensures |r| == |ps| && forall i :: 0 <= i < |ps| ==> r[i] == Select(ps[i])
  {
    seq(|ps|, i requires 0 <= i < |ps| => Select(ps[i]))
  }

  /** `url.searchParams.get(name) || fallback`. */
  function ParamOr(param: Option<string>, fallback: string): string
  {
    if param.Some? && param.value != [] then param.value else fallback
  }

  /** The filter: the user's own posts and, when a search is given, those
      whose title or (stored) description matches it. */
  predicate Listed(p: Post, userId: string, search: string, re: Regex)
  {
    && p.userId == userId
    && (search == [] || re.matches(search, p.title) || (p.description.Some? && re.matches(search, p.description.value)))
  }

  function Matching(posts: seq<Post>, userId: string, search: string, re: Regex): (r: seq<Post>)
    ensures forall i :: 0 <= i < |r| ==> Listed(r[i], userId, search, re)
  {
    Filter(posts, (p: Post) => Listed(p, userId, search, re))
  }

  function Abs(n: int): nat
  {
    if n < 0 then -n else n
  }

  /** `Math.ceil(totalPosts / limit)`; a division by zero is Infinity or
      NaN, both of which JSON renders as null. */
  function TotalPages(total: nat, limit: int): int
    requires limit != 0
  {
    if limit > 0 then (total + limit - 1) / limit else -(total / -limit)
  }

  /** What GET returns. A page or limit that parses to NaN, a search that is
      not a valid pattern, and a negative skip are rejected by the database
      and end in the 500 of the catch block. */
  function ListPosts(posts: seq<Post>, session: Option<string>, q: Query, re: Regex): (r: ListReply)
    ensures r.status in {200, 401, 500}
    ensures r.status == 401 <==> session.None?
    ensures r.status != 200 ==> r.posts == [] && r.pagination.None?
  {
    if session.None? then ListFailure(401, NotAuthenticated)
    else ListParsed(posts, session.value, ParamOr(q.search, ""),
                    ParseInt(ParamOr(q.page, "1")), ParseInt(ParamOr(q.limit, "10")), re)
  }

  /** After parsing the query string (None is NaN). */
  function ListParsed(posts: seq<Post>, userId: string, search: string, page: Option<int>, limit: Option<int>, re: Regex): (r: ListReply)
    ensures r.status in {200, 500}
    ensures r.status == 200 <==> page.Some? && limit.Some? && (search == [] || re.compiles(search))
                                 && (page.value - 1) * limit.value >= 0
  {
    if page.None? || limit.None? then ListFailure(500, PostsRetrieveFailed)
    else if search != [] && !re.compiles(search) then ListFailure(500, PostsRetrieveFailed)
    else if (page.value - 1) * limit.value < 0 then ListFailure(500, PostsRetrieveFailed)
    else ListPage(posts, userId, search, re, page.value, limit.value)
  }

  /** One page: sort newest first, skip `(page - 1) * limit`, then keep
      `limit` posts (a limit of 0 is no limit, and a negative one is taken
      by the driver as its absolute value). */
  function ListPage(posts: seq<Post>, userId: string, search: string, re: Regex, page: int, limit: int): (r: ListReply)
    requires (page - 1) * limit >= 0
    ensures r.status == 200 && r.success && r.pagination.Some?
    ensures r.pagination.value.currentPage == page
    ensures r.pagination.value.totalPosts == |Matching(posts, userId, search, re)|
    ensures r.pagination.value.totalPages.None? <==> limit == 0
    ensures limit != 0 ==> |r.posts| <= Abs(limit)
  {
    var matched := Matching(posts, userId, search, re);
    var shown := Window(SortDesc(matched, CreatedAt), (page - 1) * limit, LimitOf(limit));
    var total := if limit == 0 then None else Some(TotalPages(|matched|, limit));
    ListReply(200, true, NoMessage, SelectAll(shown), Some(Pagination(page, total, |matched|)))
  }

  /** `.limit(n)`: 0 is no limit, and the driver reads a negative n as its
      absolute value (one batch of that many). */
  function LimitOf(limit: int): Option<nat>
  {
    if limit == 0 then None else Some(Abs(limit))
  }

  // ---------------------------------------------------------------------
  // Properties of GET

  /** What a listed page promises: every entry is the selection of one of
      the user's posts that matches the search, the entries are newest
      first, and a non-zero limit bounds their number. */
  ghost predicate PageShape(shown: seq<Summary>, posts: seq<Post>, userId: string, search: string, re: Regex, limit: int)
  {
    FromListedPosts(shown, posts, userId, search, re) && NewestFirst(shown) && (limit != 0 ==> |shown| <= Abs(limit))
  }

  ghost predicate FromListedPosts(shown: seq<Summary>, posts: seq<Post>, userId: string, search: string, re: Regex)
  {
    forall i :: 0 <= i < |shown| ==>
      (exists j :: 0 <= j < |posts| && Select(posts[j]) == shown[i] && Listed(posts[j], userId, search, re))
  }

  ghost predicate NewestFirst(shown: seq<Summary>)
  {
    forall i, j :: 0 <= i < j < |shown| ==> shown[i].createdAt >= shown[j].createdAt
  }

  /** Every answered listing has that shape, for the page and limit the
      query string parses to. */
  lemma ListedPostsMatch(posts: seq<Post>, session: Option<string>, q: Query, re: Regex)
    ensures var r := ListPosts(posts, session, q, re);
            r.status == 200 ==>
              PageShape(r.posts, posts, session.value, ParamOr(q.search, ""), re, ParseInt(ParamOr(q.limit, "10")).value)
  {
    if session.Some? {
      var search, page, limit := ParamOr(q.search, ""), ParseInt(ParamOr(q.page, "1")), ParseInt(ParamOr(q.limit, "10"));
      var r := ListParsed(posts, session.value, search, page, limit, re);
      assert ListPosts(posts, session, q, re) == r;
      ParsedListMatches(posts, session.value, search, page, limit, re);
    }
  }

  lemma ParsedListMatches(posts: seq<Post>, userId: string, search: string, page: Option<int>, limit: Option<int>, re: Regex)
    ensures var r := ListParsed(posts, userId, search, page, limit, re);
            r.status == 200 ==> limit.Some? && PageShape(r.posts, posts, userId, search, re, limit.value)
  {
    if page.Some? && limit.Some? && (search == [] || re.compiles(search)) && (page.value - 1) * limit.value >= 0 {
      ParsedNumbersList(posts, userId, search, re, page.value, limit.value);
      PageHasShape(posts, userId, search, re, page.value, limit.value);
    }
  }

  lemma PageHasShape(posts: seq<Post>, userId: string, search: string, re: Regex, page: int, limit: int)
    requires (page - 1) * limit >= 0
    ensures PageShape(ListPage(posts, userId, search, re, page, limit).posts, posts, userId, search, re, limit)
  {
    PageFromOwnPosts(posts, userId, search, re, page, limit);
    PageNewestFirst(posts, userId, search, re, page, limit);
  }

  lemma PageFromOwnPosts(posts: seq<Post>, userId: string, search: string, re: Regex, page: int, limit: int)
    requires (page - 1) * limit >= 0
    ensures FromListedPosts(ListPage(posts, userId, search, re, page, limit).posts, posts, userId, search, re)
  {
    var matched := Matching(posts, userId, search, re);
    var sorted := SortDesc(matched, CreatedAt);
    var shown := Window(sorted, (page - 1) * limit, LimitOf(limit));
    var listed := SelectAll(shown);
    assert ListPage(posts, userId, search, re, page, limit).posts == listed;
    forall i | 0 <= i < |listed|
      ensures exists j :: 0 <= j < |posts| && Select(posts[j]) == listed[i] && Listed(posts[j], userId, search, re)
    {
      var x := shown[i];
      assert x == sorted[(page - 1) * limit + i];
      assert x in multiset(sorted);
      assert x in multiset(matched);
      var m :| 0 <= m < |matched| && matched[m] == x;
      assert Listed(x, userId, search, re);
      assert x in multiset(posts);
      var j :| 0 <= j < |posts| && posts[j] == x;
    }
  }

  lemma PageNewestFirst(posts: seq<Post>, userId: string, search: string, re: Regex, page: int, limit: int)
    requires (page - 1) * limit >= 0
    ensures var r := ListPage(posts, userId, search, re, page, limit);
            NewestFirst(r.posts) && (limit != 0 ==> |r.posts| <= Abs(limit))
  {
    var sorted := SortDesc(Matching(posts, userId, search, re), CreatedAt);
    var shown := Window(sorted, (page - 1) * limit, LimitOf(limit));
    WindowSorted(sorted, (page - 1) * limit, LimitOf(limit), CreatedAt);
    var listed := SelectAll(shown);
    assert ListPage(posts, userId, search, re, page, limit).posts == listed;
    forall i, j | 0 <= i < j < |listed| ensures listed[i].createdAt >= listed[j].createdAt {
      assert listed[i].createdAt == CreatedAt(shown[i]) && listed[j].createdAt == CreatedAt(shown[j]);
    }
  }

  /** With a positive limit l, the i-th post of the sorted, filtered list is
      the (i mod l)-th post of page i div l + 1: the pages tile the list. */
  lemma EveryPostOnItsPage(posts: seq<Post>, userId: string, search: string, re: Regex, limit: int, i: nat)
    requires limit > 0
    requires search == [] || re.compiles(search)
    requires i < |Matching(posts, userId, search, re)|
    ensures var q := Query(Some(search), Some(IntString(i / limit + 1)), Some(IntString(limit)));
            var r := ListPosts(posts, Some(userId), q, re);
            && r.status == 200
            && i % limit < |r.posts|
            && r.posts[i % limit] == Select(SortDesc(Matching(posts, userId, search, re), CreatedAt)[i])
  {
    var page := i / limit + 1;
    var skip := (i / limit) * limit;
    DivMod(i, limit);
    PageSkip(i, limit, page);
    RenderedQuery(posts, userId, search, re, page, limit);
    PageHoldsPost(posts, userId, search, re, page, limit, skip, i % limit, i);
  }

  /** Page i div l + 1 skips (i div l) * l posts, which is not negative. */
  lemma PageSkip(i: nat, limit: int, page: int)
    requires limit > 0 && page == i / limit + 1
    ensures (page - 1) * limit == (i / limit) * limit && (i / limit) * limit >= 0
  {
    MulMonotone(0, i / limit, limit);
  }

  /** The entry at offset `off` of a page whose skip is `skip` is the post
      at `skip + off` of the sorted list, when there is one. */
  lemma PageHoldsPost(posts: seq<Post>, userId: string, search: string, re: Regex, page: int, limit: int,
                      skip: nat, off: nat, idx: nat)
    requires limit > 0 && (page - 1) * limit == skip && off < limit
    requires idx == skip + off && idx < |Matching(posts, userId, search, re)|
    ensures var r := ListPage(posts, userId, search, re, page, limit);
            && off < |r.posts|
            && r.posts[off] == Select(SortDesc(Matching(posts, userId, search, re), CreatedAt)[idx])
  {
    var sorted := SortDesc(Matching(posts, userId, search, re), CreatedAt);
    var w := Window(sorted, skip, Some(limit));
    assert ListPage(posts, userId, search, re, page, limit).posts == SelectAll(w);
    WindowHolds(sorted, skip, limit, off, idx);
  }

  lemma DivMod(i: nat, limit: int)
    requires limit > 0
    ensures (i / limit) * limit + i % limit == i && 0 <= i % limit < limit
  {
  }

  /** A query naming a page and a limit lists that page. */
  lemma RenderedQuery(posts: seq<Post>, userId: string, search: string, re: Regex, page: int, limit: int)
    requires (page - 1) * limit >= 0
    requires search == [] || re.compiles(search)
    ensures ListPosts(posts, Some(userId), Query(Some(search), Some(IntString(page)), Some(IntString(limit))), re) ==
            ListPage(posts, userId, search, re, page, limit)
  {
    var q := Query(Some(search), Some(IntString(page)), Some(IntString(limit)));
    ParsedQuery(search, page, limit);
    assert ListPosts(posts, Some(userId), q, re) == ListParsed(posts, userId, search, Some(page), Some(limit), re);
    ParsedNumbersList(posts, userId, search, re, page, limit);
  }

  /** Numbers that parsed, a pattern that compiles and a skip that is not
      negative list the page. */
  lemma ParsedNumbersList(posts: seq<Post>, userId: string, search: string, re: Regex, page: int, limit: int)
    requires (page - 1) * limit >= 0
    requires search == [] || re.compiles(search)
    ensures ListParsed(posts, userId, search, Some(page), Some(limit), re) == ListPage(posts, userId, search, re, page, limit)
  {
    var p, l: Option<int> := Some(page), Some(limit);
    assert p.Some? && l.Some? && p.value == page && l.value == limit;
    assert !(search != [] && !re.compiles(search)) && !((p.value - 1) * l.value < 0);
  }

  /** A query built from rendered numbers reads them back. */
  lemma ParsedQuery(search: string, page: int, limit: int)
    ensures var q := Query(Some(search), Some(IntString(page)), Some(IntString(limit)));
            && ParseInt(ParamOr(q.page, "1")) == Some(page)
            && ParseInt(ParamOr(q.limit, "10")) == Some(limit)
            && ParamOr(q.search, "") == search
  {
    RenderedParam(page, "1");
    RenderedParam(limit, "10");
  }

  /** A parameter holding a rendered number is read back as that number,
      whatever the fallback. */
  lemma RenderedParam(n: int, fallback: string)
    ensures ParseInt(ParamOr(Some(IntString(n)), fallback)) == Some(n)
  {
    var s := IntString(n);
    assert ParamOr(Some(s), fallback) == s;
    ParseIntOfRendering(n);
  }

  /** `get("page") || "1"` and `get("limit") || "10"`: an absent or empty
      page is page 1, and an absent or empty limit is 10. */
  lemma ListDefaults(posts: seq<Post>, userId: string, search: Option<string>, page: Option<string>,
                     limit: Option<string>, re: Regex)
    requires page.Some? ==> page.value == []
    requires limit.Some? ==> limit.value == []
    ensures ListPosts(posts, Some(userId), Query(search, page, limit), re) ==
            ListParsed(posts, userId, ParamOr(search, ""), Some(1), Some(10), re)
  {
    assert ParamOr(page, "1") == "1" && ParamOr(limit, "10") == "10";
    RenderedParam(1, "1");
    RenderedParam(10, "10");
    assert IntString(1) == "1" && IntString(10) == "10";
  }

  /** With a positive limit, totalPages is the least number of pages of that
      size holding every matching post, and any page after it is empty. */
  lemma TotalPagesCover(total: nat, limit: int)
    requires limit > 0
    ensures var n := TotalPages(total, limit);
            n >= 0 && n * limit >= total && (n == 0 || (n - 1) * limit < total)
  {
    var n := TotalPages(total, limit);
    assert n == (total + limit - 1) / limit;
    assert n * limit <= total + limit - 1 < (n + 1) * limit;
  }

  lemma PastLastPageIsEmpty(posts: seq<Post>, userId: string, search: string, re: Regex, page: int, limit: int)
    requires limit > 0 && page > TotalPages(|Matching(posts, userId, search, re)|, limit)
    ensures (page - 1) * limit >= 0
    ensures ListPage(posts, userId, search, re, page, limit).posts == []
  {
    var total := |Matching(posts, userId, search, re)|;
    TotalPagesCover(total, limit);
    var n := TotalPages(total, limit);
    MulMonotone(n, page - 1, limit);
    var skip := (page - 1) * limit;
    assert skip >= total;
    var sorted := SortDesc(Matching(posts, userId, search, re), CreatedAt);
    assert ListPage(posts, userId, search, re, page, limit).posts == SelectAll(Window(sorted, skip, LimitOf(limit)));
  }

  lemma MulMonotone(a: int, b: int, c: int)
    requires 0 <= a <= b && c > 0
    ensures 0 <= a * c <= b * c
  {
  }

  /** totalPosts counts every matching post, whatever page is asked for. */
  lemma TotalIgnoresPage(posts: seq<Post>, userId: string, search: string, re: Regex, page1: int, page2: int, limit: int)
    requires (page1 - 1) * limit >= 0 && (page2 - 1) * limit >= 0
    ensures ListPage(posts, userId, search, re, page1, limit).pagination.value.totalPosts ==
            ListPage(posts, userId, search, re, page2, limit).pagination.value.totalPosts ==
            |Matching(posts, userId, search, re)|
  {
  }

  /** Without a search every one of the user's posts is counted, and no
      other user's post ever is. */
  lemma NoSearchListsAllOwn(posts: seq<Post>, userId: string, re: Regex, k: nat)
    requires k < |posts|
    ensures Listed(posts[k], userId, "", re) <==> posts[k].userId == userId
  {
  }
}
