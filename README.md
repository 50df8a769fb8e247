# Anonymous feedback: a verified model of the core

The application lets a signed-in owner publish posts and collect anonymous
feedback on them. A visitor submits feedback without an account. The server
tells repeat visitors apart by a token kept in a cookie and by a bcrypt hash
of their address. Owners register, verify their email with a six-digit code,
list their posts page by page, and read three dashboard panels. The post
details view updates vote counts on the client.

The model keeps the route handlers' decisions and their effect on the stored
collections. Each handler is a function from the collections before the
request to the reply and the collections after it. Where the handler changes
documents one save at a time, a method over the in-memory store `Store.Db`
performs the same steps. Its contract ties the new state to that function.

Modules:

- `Common`: shared values and helpers.
  - Option, Result and the reply texts.
  - JSON request bodies.
  - JavaScript's `String.prototype.trim`, which every mongoose `trim: true` field uses.
  - Decimal rendering and `parseInt`.
  - The ObjectId cast.
- `Ordering`: Mongo's `find` filter, a stable sort with the largest key first, and `skip`/`limit`/`slice`.
- `Models`: the mongoose schemas of Post, Feedback, FeedbackVote, PostVote and User.
  - Defaults, trim setters and required validators.
  - Enums and unique indexes.
  - A six-digit verification code drawn at random.
- `Schemas`: the zod schemas and the messages they report.
- `Store`: the three collections as fields of one class.
- `FeedbackSubmission`: POST /api/feedbacks, the anonymous submission gate.
- `VerifyCode`, `SignUp`, `UsernameCheck`: account verification, registration and the username availability check.
- `Posts`: POST and GET /api/posts.
- `TopPosts`, `RecentPosts`, `Stats`: the three dashboard routes.
- `PostDetails`: the client-side vote updates and the button highlight rule.

Where the written code and the intended design disagree, the model follows
the code:

- A sign-up body that fails the schema gets no status, so 200 with `success: false`.
- Sign-up reads its fields from the raw payload, not from the parsed data. For a body that passes the schema, the two are equal.
- The duplicate check is one OR per earlier record. A token match does not take precedence over an address match.
- The submission gate never reads `isAcceptingFeedback`. A closed post still accepts feedback.
- `link` has a unique index that is not sparse. A post left without a link, because its second save failed, blocks every later post creation.
- The password rule "should be under 20 characters" is `.max(20)`, so 20 characters pass.
- `findOne({ username })` passes the query value through the field's trim setter, so lookups compare trimmed names.
- The top-posts and recent-posts routes `populate("feedbacks", "_id")` through the Post schema's ref "feedbacks". The Feedback model is registered as "Feedback", so a query that returns a document throws, and the catch block answers 500. `TopPostsOf` and `RecentPostsOf` model that. `TopPostsIntended` and `RecentPostsIntended` keep the computation the routes evidently intend (see "## Findings").

## Model

| member | source | states |
|---|---|---|
| Common.TrimStart | src/models/post.model.ts:29 | The result is a suffix of the input that starts with a non-whitespace character, and everything cut off is ECMAScript whitespace. |
| Common.IsJsWhitespace | src/models/post.model.ts:29 | The characters `trim` removes: ECMAScript's WhiteSpace and LineTerminator code points (sections 12.2 and 12.3 of ECMA-262). |
| Common.TrimEnd | src/models/post.model.ts:29 | The result is a prefix of the input that ends with a non-whitespace character, and everything cut off is whitespace. |
| Common.Trim | src/models/post.model.ts:29 | `String.prototype.trim`, with no contract of its own. TrimStart and TrimEnd state the two cuts, and TrimmedHasNoOuterWhitespace, TrimEmptyIff and TrimIdempotent state the result. |
| Common.TrimmedHasNoOuterWhitespace | src/models/feedback.model.ts:19 | A trimmed string is empty or has non-whitespace characters at both ends. |
| Common.TrimEmptyIff | src/models/feedback.model.ts:19 | Trimming yields the empty string exactly when the input is all whitespace, which is when a required trimmed field fails. |
| Common.BlankTrimsToEmpty | src/models/post.model.ts:29 | An all-whitespace string loses every character to the leading cut. |
| Common.TrimIdempotent | src/models/user.model.ts:20 | Trimming a trimmed value changes nothing, so a stored trimmed username is found by its own value. |
| Common.DecimalString | src/app/api/signup/route.ts:40 | `toString()` of a natural number is a nonempty string of decimal digits. |
| Common.DecimalRoundTrip | src/app/api/signup/route.ts:40 | Reading the digits of a rendered number gives the number back. |
| Common.DecimalLength | src/app/api/signup/route.ts:40 | A number with k digits renders as exactly k characters. |
| Common.SixDigitCode | src/app/api/signup/route.ts:40 | Every number from 100000 to 999999 renders as six characters. |
| Common.DigitPrefix | src/app/api/posts/route.ts:96-97 | The longest leading run of digits: a prefix made only of digits, followed by a non-digit or by the end. |
| Common.ParseInt | src/app/api/posts/route.ts:96-97 | `parseInt(s, 10)`, with no contract of its own. ParseIntRoundTrip, SignedRoundTrip and LeadingWhitespaceSkipped state what it reads. |
| Common.IntString | src/app/api/posts/route.ts:96-97 | An integer renders as a nonempty string that does not start with whitespace. |
| Common.ParseIntRoundTrip | src/app/api/posts/route.ts:96-97 | `parseInt` reads back any rendered integer, after any leading whitespace and before any suffix that does not start with a digit. |
| Common.ParseIntOfRendering | src/app/api/posts/route.ts:96-97 | `parseInt` of a rendered integer is that integer. |
| Common.SignedRoundTrip | src/app/api/posts/route.ts:96-97 | An optional sign and then digits read back as the integer they render. |
| Common.NegativeRendering | src/app/api/posts/route.ts:96-97 | A negative number is read as '-' followed by the digits of its magnitude. |
| Common.NegativeRoundTrip | src/app/api/posts/route.ts:96-97 | '-' before the digits of m reads as -m. |
| Common.NonNegativeRoundTrip | src/app/api/posts/route.ts:96-97 | The digits of a natural number, before a non-digit suffix, read back as that number. |
| Common.DigitsReadBack | src/app/api/posts/route.ts:96-97 | The leading digit run of a rendered number is its rendering, and its value is the number. |
| Common.LeadingWhitespaceSkipped | src/app/api/posts/route.ts:96-97 | `parseInt` skips exactly the leading whitespace. |
| Common.CastObjectId | src/app/api/feedbacks/route.ts:42-44 | The cast succeeds exactly for 24 hexadecimal digits. It yields those digits, each in lower case. Any other id is a CastError. |
| Common.CastCanonical | src/app/api/feedbacks/route.ts:42-44 | The canonical form of an ObjectId casts to itself. |
| Ordering.Filter | src/app/api/dashboard/top-posts/route.ts:34 | The kept elements satisfy the predicate and form a sub-multiset of the input. FilterConcat states their order. |
| Ordering.FilterKeeps | src/app/api/dashboard/top-posts/route.ts:34 | Every element that satisfies the predicate survives the filter. |
| Ordering.FilterAppend | src/app/api/dashboard/stats/route.ts:32-34 | Appending one element extends the filtered list by it exactly when it satisfies the predicate. |
| Ordering.FilterSplit | src/app/api/dashboard/stats/route.ts:44-49 | A predicate and its negation split a list into two parts whose sizes add up to its length. |
| Ordering.FilterCountDisjoint | src/app/api/dashboard/stats/route.ts:44-49 | When r holds exactly where one of two exclusive predicates holds, r's count is the sum of their counts. |
| Ordering.FilterNone | src/app/api/dashboard/stats/route.ts:32-34 | A filter that no element satisfies yields nothing. |
| Ordering.FilterFilter | src/app/api/dashboard/top-posts/route.ts:26-34 | Filtering twice is filtering by the conjunction. |
| Ordering.FilterConcat | src/app/api/dashboard/top-posts/route.ts:34 | Filtering a concatenation concatenates the filtered parts, so the kept elements stay in their original order. |
| Ordering.FilterMonotone | src/app/api/dashboard/top-posts/route.ts:26-34 | A predicate that holds wherever another holds keeps at least as many elements. |
| Ordering.Insert | src/app/api/dashboard/top-posts/route.ts:73 | Inserting into a sorted list keeps it sorted and adds exactly that element. |
| Ordering.SortDesc | src/app/api/dashboard/top-posts/route.ts:73 | The sort is a permutation of its input, ordered by non-increasing key. |
| Ordering.Take | src/app/api/dashboard/top-posts/route.ts:74 | `slice(0, n)` is the prefix of length min(n, length). |
| Ordering.Drop | src/app/api/posts/route.ts:109-115 | Dropping n elements leaves the suffix of length max(length - n, 0). |
| Ordering.Window | src/app/api/posts/route.ts:109-115 | `skip(s).limit(l)` holds the elements from position s on, at most l of them. It is nonempty when something lies past the skip and the limit is not zero, and empty when nothing lies past the skip. |
| Ordering.WindowHolds | src/app/api/posts/route.ts:109-115 | Every element from the skip on, up to the limit, is in the window at its offset. |
| Ordering.WindowSorted | src/app/api/posts/route.ts:113-115 | A window of a sorted list is sorted. |
| Ordering.TakeKeepsLargest | src/app/api/dashboard/top-posts/route.ts:73-74 | A prefix of a sorted list is sorted, and every element left out has a key no greater than any element kept. |
| Models.NewPost | src/models/post.model.ts:26-49 | A new post validates exactly when its trimmed title is nonempty. Title and description are trimmed. Likes, dislikes, the sentiment counts, the feedback list and the themes start at 0 or empty. Feedback is accepted, and there is no link yet. |
| Models.ValidatorError | src/models/user.model.ts:18-41 | mongoose's validation text `<Model> validation failed: <path>: <message>`, used with each schema's own required and match messages. |
| Models.DistinctPostIds | src/models/post.model.ts:26 | The `_id` index: no two posts share an id. |
| Models.DistinctLinks | src/models/post.model.ts:31 | The unique, non-sparse `link` index: no two posts share a link, so at most one post lacks one. |
| Models.InsertPost | src/models/post.model.ts:31 | The first save succeeds exactly when the id and the link are unused, a missing link included. It appends the post and keeps ids and links distinct. Otherwise it fails with the duplicate-key error. |
| Models.SetLink | src/models/post.model.ts:31 | Setting a link succeeds exactly when no other post has it. It changes only that post's link and keeps ids and links distinct. |
| Models.FindPost | src/app/api/feedbacks/route.ts:42-44 | `findOne({ _id })` yields the first post with that id, or None when no post has it. |
| Models.OwnPosts | src/app/api/dashboard/top-posts/route.ts:26-28 | `find({ userId })`: every post kept belongs to the user. |
| Models.ParseSentiment | src/models/feedback.model.ts:23-26 | Exactly "positive", "neutral" and "negative" pass the enum, each naming its own value. |
| Models.SentimentRoundTrip | src/models/feedback.model.ts:23-26 | Every sentiment's name parses back to it. |
| Models.NewFeedback | src/models/feedback.model.ts:16-35 | A record validates exactly when postId, content after trimming, ipAddress and userToken are nonempty. It holds the trimmed content, no votes, no sentiment, and both counters at 0. |
| Models.FeedbacksOf | src/app/api/feedbacks/route.ts:58-60 | `FeedbackModel.find({ postId })`: the post's feedback records, in collection order. |
| Models.DistinctFeedbackIds | src/models/feedback.model.ts:16 | The `_id` index: no two feedback records share an id. |
| Models.ParseFeedbackVoteType | src/models/feedbackVote.model.ts:20 | Exactly "upvote" and "downvote" pass the enum. |
| Models.InsertFeedbackVote | src/models/feedbackVote.model.ts:11-31 | A vote is stored exactly when its required fields are nonempty and no stored vote has the same (feedbackId, ipAddress, userToken). A repeated key is the duplicate-key error. The unique index is preserved. |
| Models.UniqueVoteKeys | src/models/feedbackVote.model.ts:27-31 | The compound unique index as a store invariant: no two votes share feedbackId, ipAddress and userToken. |
| Models.DistinctVotersCoexist | src/models/feedbackVote.model.ts:27-31 | Two votes on one feedback that differ in address hash or in token are both stored. |
| Models.ParsePostVoteType | src/models/postVote.model.ts:15 | Exactly "like" and "dislike" pass the enum. |
| Models.InsertPostVote | src/models/postVote.model.ts:10-20 | A post vote is stored exactly when its required fields are nonempty, with no uniqueness check. |
| Models.PostVotesMayRepeat | src/models/postVote.model.ts:10-20 | Without an index, the same token can hold two votes on one post. |
| Models.NewUser | src/models/user.model.ts:15-52 | A user validates exactly when the trimmed username, the email, the password and the code are nonempty and the email matches the pattern. A new user is unverified and accepts messages. |
| Models.UniqueUsers | src/models/user.model.ts:16-25 | The unique indexes on username and email, with `_id`: no two users share a username, an email or an id. |
| Models.InsertUser | src/models/user.model.ts:16-25 | Saving a new user succeeds exactly when its username, email and id are unused. It appends the user and preserves the unique indexes. |
| Models.FindUser | src/app/api/signup/route.ts:21-24 | `findOne` yields the first user that matches, or None when none does. |
| Models.FindUserAppended | src/app/api/signup/route.ts:63-75 | A user appended after no match is the first match. |
| Models.FindByUsername | src/app/api/check-username-unique/route.ts:34-36 | `findOne({ username })` yields the first user whose stored name equals the trimmed query, or None when nobody holds it. |
| Models.SameUsernamesSameLookup | src/app/api/verify-code/route.ts:24-26 | A lookup by username depends only on the usernames. |
| Models.SameVerdictsSameMatch | src/app/api/verify-code/route.ts:24-26 | The first match depends only on where the predicate holds. |
| Models.IssuedCode | src/app/api/signup/route.ts:40 | A drawn code is six decimal digits. |
| Models.IssuedCodeRange | src/app/api/signup/route.ts:40 | A drawn code reads as a number from 100000 to 999999. |
| Models.IssuedCodeCovers | src/app/api/signup/route.ts:40 | Every number from 100000 to 999999 can be drawn. |
| Models.UpdateKeepsUnique | src/app/api/signup/route.ts:57-61 | Changing fields no index covers keeps the username, email and id indexes satisfied. |
| Store.Db.Valid | src/models/post.model.ts:26-31 | The store invariant that the unique indexes maintain: DistinctPostIds and DistinctLinks on the posts, DistinctFeedbackIds on the feedback (src/models/feedback.model.ts:16), and UniqueUsers on the users (src/models/user.model.ts:16-25). Every handler method requires it and keeps it. |
| Schemas.StringField | src/schemas/feedbackSchema.ts:3-8 | `zod.string()` passes exactly a string under the key and reports one issue otherwise (the schema's own message when it has one). |
| Schemas.OptionalStringField | src/schemas/feedbackSchema.ts:7 | An optional string passes when it is absent or a string. null fails. |
| Schemas.LengthBounds | src/schemas/signUpSchema.ts:4-7 | `.min().max()` passes exactly the lengths in range. Each failed bound adds its own message and no other message. |
| Schemas.MinLength | src/schemas/messageSchema.ts:3-7 | `.min()` passes exactly the long-enough strings and reports its message otherwise. |
| Schemas.EmailCheck | src/schemas/signUpSchema.ts:8 | `.email()` passes exactly the addresses the pattern accepts and reports its message otherwise. |
| Schemas.ParseFeedback | src/schemas/feedbackSchema.ts:3-8 | feedbackSchema passes exactly an object with string postId, content and ipAddress and an optional string userToken, and yields those fields. |
| Schemas.ParseUpdateFeedback | src/schemas/feedbackSchema.ts:10-14 | updateFeedbackSchema needs string content and ipAddress. userToken is optional. |
| Schemas.ParseDeleteFeedback | src/schemas/feedbackSchema.ts:16-19 | deleteFeedbackSchema needs only a string ipAddress. userToken is optional. |
| Schemas.VoteField | src/schemas/voteSchema.ts:6-8 | vote passes exactly as "upvote" or "downvote". Every failure carries the schema's message. |
| Schemas.ParseVote | src/schemas/voteSchema.ts:3-9 | voteSchema passes exactly with a string ipAddress, an optional string userToken and a valid vote. A missing address reports "Ip address is required.". |
| Schemas.UsernameField | src/schemas/signUpSchema.ts:4-7 | A username passes exactly with 4 to 20 characters. Too short and too long report their own messages. |
| Schemas.PasswordField | src/schemas/signUpSchema.ts:9-12 | A password passes exactly with 6 to 20 characters, 20 included. |
| Schemas.EmailField | src/schemas/signUpSchema.ts:8 | An email passes exactly when zod's address check accepts it, and reports "Invalid email address." otherwise. |
| Schemas.ParseSignUp | src/schemas/signUpSchema.ts:3-13 | signUpSchema passes exactly when all three field rules pass, and yields the three strings. |
| Schemas.ParseSignIn | src/schemas/signInSchema.ts:3-9 | signInSchema needs a well-formed email and a password of 6 to 20 characters, with the bound messages. |
| Schemas.ParseVerify | src/schemas/verifySchema.ts:3-7 | verifySchema passes exactly a code of length 6, of any characters. |
| Schemas.IssuedCodePasses | src/schemas/verifySchema.ts:3-7 | Every code the server issues passes verifySchema. |
| Schemas.ParseMessage | src/schemas/messageSchema.ts:3-7 | messageSchema passes exactly a feedback string of at least 10 characters. |
| Schemas.ParsePost | src/schemas/postSchema.ts:3-6 | postSchema passes exactly a string title, with no length bound, and an optional string description. |
| FeedbackSubmission.ResolveIp | src/app/api/feedbacks/route.ts:33 | The client address when there is a nonempty one, otherwise "127.0.0.1". Never empty. |
| FeedbackSubmission.ResolveToken | src/app/api/feedbacks/route.ts:37-40 | A supplied nonempty token is used verbatim. An absent or empty one is replaced by the fresh uuid. |
| FeedbackSubmission.Sound | src/app/api/feedbacks/route.ts:67-85 | What the model relies on of `bcrypt.compare` and `bcrypt.hash`: a hash is never empty, and an address verifies against every hash of itself. |
| FeedbackSubmission.SameActor | src/app/api/feedbacks/route.ts:67-69 | The scan's guard for one record: the same token, or an address that `bcrypt.compare` accepts against the stored hash. |
| FeedbackSubmission.HasDuplicate | src/app/api/feedbacks/route.ts:62-73 | Some record among the post's feedback satisfies the guard, which is when the loop sets `feedbackExists`. |
| FeedbackSubmission.Conflicts | src/app/api/feedbacks/route.ts:58-73 | Some record in the whole collection is on the post and satisfies the guard. ScanFindsConflict ties it to the scan. |
| FeedbackSubmission.PushFeedback | src/app/api/feedbacks/route.ts:95-99 | `$push: { feedbacks: id }` on the post, which appends the id and leaves every other post and field alone. |
| FeedbackSubmission.StoredRecord | src/app/api/feedbacks/route.ts:85-93 | The record `new FeedbackModel({...})` saves: the canonical post id, the trimmed content, the address hash, the resolved token, no votes, no sentiment and zero vote counts. |
| FeedbackSubmission.FindDuplicate | src/app/api/feedbacks/route.ts:63-73 | The loop reports a duplicate exactly when some earlier record has the same token or an address hash that verifies. It stops at the first such record. |
| FeedbackSubmission.PushFeedbackKeepsKeys | src/app/api/feedbacks/route.ts:95-99 | `$push` onto one post keeps post ids and links distinct. |
| FeedbackSubmission.SubmitOutcome | src/app/api/feedbacks/route.ts:10-131 | The whole handler. The status is 201, 400, 404, 409 or 500. Only a 201 changes the collections: it adds one feedback and keeps the number of posts. |
| FeedbackSubmission.AcceptOutcome | src/app/api/feedbacks/route.ts:33-44 | After validation, with the address and token resolved. The status is 201, 404, 409 or 500, and only a 201 changes the collections. |
| FeedbackSubmission.LookupOutcome | src/app/api/feedbacks/route.ts:42-118 | After the cast: the post lookup, the duplicate check and the store step. The status is 201, 404, 409 or 500, and only a 201 changes the collections. |
| FeedbackSubmission.StoreOutcome | src/app/api/feedbacks/route.ts:85-118 | The store step is 201 or 500. Only a 201 changes the collections, and it adds exactly one feedback. |
| FeedbackSubmission.Submit | src/app/api/feedbacks/route.ts:10-131 | The handler over the store leaves the posts and feedback collections and the reply as SubmitOutcome says, keeps the store invariant, and leaves users alone. |
| FeedbackSubmission.SubmitToPost | src/app/api/feedbacks/route.ts:42-118 | After validation: the post lookup, the duplicate scan and the store step, as the outcome function states them. |
| FeedbackSubmission.StoreFeedback | src/app/api/feedbacks/route.ts:85-118 | Hash the address, save the record, and push its id onto the post, as the outcome function states. |
| FeedbackSubmission.RejectionChangesNothing | src/app/api/feedbacks/route.ts:18-83 | Every reply other than 201 leaves both collections unchanged. The status is one of 201, 400, 404, 409 and 500, and success holds exactly on 201. |
| FeedbackSubmission.LookupRejectionChangesNothing | src/app/api/feedbacks/route.ts:42-83 | After validation, 404, 409 and 500 change nothing. |
| FeedbackSubmission.StoreRejectionChangesNothing | src/app/api/feedbacks/route.ts:87-93 | A record refused by mongoose validation is a 500 that changes nothing. |
| FeedbackSubmission.InvalidBodyIs400 | src/app/api/feedbacks/route.ts:15-28 | 400 exactly when the body fails feedbackSchema. The reply lists zod's messages, and nothing is looked up or written. |
| FeedbackSubmission.MissingPostIs404 | src/app/api/feedbacks/route.ts:42-54 | 404 exactly when the body is valid, the postId is an ObjectId, and no post has it. |
| FeedbackSubmission.ScanFindsConflict | src/app/api/feedbacks/route.ts:58-73 | Scanning the post's feedback finds a match exactly when the collection holds a feedback on that post from the same actor. |
| FeedbackSubmission.DuplicateIsConflict | src/app/api/feedbacks/route.ts:58-73 | A match among the post's records is a conflicting record in the whole collection. |
| FeedbackSubmission.ConflictIsDuplicate | src/app/api/feedbacks/route.ts:58-73 | A conflicting record in the collection is among the post's records. |
| FeedbackSubmission.DuplicateIs409 | src/app/api/feedbacks/route.ts:65-83 | 409 exactly when the post exists and some earlier feedback on it has the effective token or an address hash that verifies against the request address. Either alone suffices. |
| FeedbackSubmission.SuccessStoresOneRecord | src/app/api/feedbacks/route.ts:85-116 | On 201, exactly one record is appended. It holds the canonical post id, the trimmed content, a hash of the address and the effective token. The new id goes once onto the end of that post's list, and no other post changes. The reply carries the record, the token, and the 30-day `au` cookie holding the token. |
| FeedbackSubmission.StoreSucceeds | src/app/api/feedbacks/route.ts:85-116 | The store step on success appends the record and pushes its id. |
| FeedbackSubmission.AcceptingFlagIgnored | src/app/api/feedbacks/route.ts:42-54 | Opening or closing a post does not change the reply or the stored feedback of a submission. |
| FeedbackSubmission.SameIdsSameLookup | src/app/api/feedbacks/route.ts:42-44 | A post lookup depends only on the ids. |
| FeedbackSubmission.SecondSubmissionConflicts | src/app/api/feedbacks/route.ts:58-83 | After a successful submission, a second one to the same post gets 409 if it comes from the same address or presents the returned token. This assumes bcrypt verifies an address against its own hash. |
| VerifyCode.VerifyOutcome | src/app/api/verify-code/route.ts:9-96 | The number of users never changes. |
| VerifyCode.Decide | src/app/api/verify-code/route.ts:37-85 | The decision changes no user other than the one found. |
| VerifyCode.Verify | src/app/api/verify-code/route.ts:9-96 | The handler over the store leaves the users, the reply and the email as the outcome function says, and does not touch posts or feedback. |
| VerifyCode.Apply | src/app/api/verify-code/route.ts:37-85 | The decision on the fetched user and its save, as the decision function says. |
| VerifyCode.VerifiedIsPermanent | src/app/api/verify-code/route.ts:40-76 | No user is added or removed. Usernames and emails never change, and only the named user can change. A verified user stays verified. |
| VerifyCode.OneChangeKeepsAccounts | src/app/api/verify-code/route.ts:49-67 | Replacing the named user by one with the same username and email that is still verified, if it was, keeps the accounts. |
| VerifyCode.DecideTouchesOne | src/app/api/verify-code/route.ts:40-85 | The decision changes at most the found user, never its username or email, and never clears `isVerified`. |
| VerifyCode.VerifiedIff200 | src/app/api/verify-code/route.ts:37-59 | 200 exactly when the user exists and is unverified, the code is equal, and the expiry is strictly later than now. The only change is that user becoming verified. |
| VerifyCode.VerificationNeedsCurrentCode | src/app/api/verify-code/route.ts:49-59 | A user becomes verified only by a 200 that presented that user's current, unexpired code. |
| VerifyCode.ExpiredCodeReissued | src/app/api/verify-code/route.ts:60-76 | An unverified user with an expired code gets a new six-digit code and an expiry one hour from now, stays unverified, and is mailed the code. The reply is 400 even when the code matched. |
| VerifyCode.RejectionsChangeNothing | src/app/api/verify-code/route.ts:10-48 | Every reply other than a 200 or a reissue changes no user and mails nothing. The status is 200, 400, 404 or 500, and 404 means exactly an unknown username. |
| VerifyCode.AlreadyVerifiedIs400 | src/app/api/verify-code/route.ts:40-48 | A verified user gets 400, whatever code and time, and nothing changes. |
| VerifyCode.WrongCodeIs400 | src/app/api/verify-code/route.ts:77-85 | An unexpired but wrong code gets 400, and nothing changes. |
| VerifyCode.ReissuedCodeVerifies | src/app/api/verify-code/route.ts:60-76 | For the decision procedure with the username as an input: presenting the reissued code for the same username before the new expiry verifies the account. |
| VerifyCode.ReissueThenPresent | src/app/api/verify-code/route.ts:49-67 | After a reissue, the new code presented in time takes the 200 branch. |
| VerifyCode.PresentedCodeReachesDecision | src/app/api/verify-code/route.ts:10-35 | With the username as an input, a six-character code for a known username passes the schema and reaches the decision. |
| SignUp.SignUpOutcome | src/app/api/signup/route.ts:9-115 | A request adds at most one user. |
| SignUp.RegisterOutcome | src/app/api/signup/route.ts:19-103 | After validation, at most one user is added. |
| SignUp.Written | src/app/api/signup/route.ts:21-75 | The conflict checks and the write add at most one user. |
| SignUp.Save | src/app/api/signup/route.ts:53-75 | An overwrite keeps the number of users, and an insert adds one. |
| SignUp.InsertNew | src/app/api/signup/route.ts:63-75 | A successful insert adds one user. |
| SignUp.VerifiedHolder | src/app/api/signup/route.ts:21-24 | `findOne({ username, isVerified: true })` yields a verified user holding the trimmed name, or None when there is none. |
| SignUp.EmailHolder | src/app/api/signup/route.ts:37-39 | `findOne({ email })` yields a user with that email, or None when there is none. |
| SignUp.Mailed | src/app/api/signup/route.ts:77-93 | A failed email turns the reply into a 500 carrying the mailer's message, without undoing the write. With no email or no failure, the outcome is unchanged. |
| SignUp.Handle | src/app/api/signup/route.ts:9-115 | The handler over the store leaves the users, the reply and the email as the outcome function says, and does not touch posts or feedback. |
| SignUp.Register | src/app/api/signup/route.ts:19-103 | The checks, the write and the email over the store, as the registration function says. |
| SignUp.SaveUser | src/app/api/signup/route.ts:53-75 | The in-place overwrite or the insert, as the save function says. |
| SignUp.InvalidBodyChangesNothing | src/app/api/signup/route.ts:11-18 | A schema failure is answered with 200 and `success: false`, lists zod's messages, writes nothing and mails nothing. |
| SignUp.ValidBodyRegisters | src/app/api/signup/route.ts:11-19 | A valid body goes on to registration with fields that satisfy the schema. |
| SignUp.TakenUsernameIs400 | src/app/api/signup/route.ts:21-35 | A username held by a verified user gets 400 before the email is looked at, and nothing is written. |
| SignUp.VerifiedEmailIs400 | src/app/api/signup/route.ts:42-52 | An email held by a verified user gets 400, and nothing is written. |
| SignUp.ConflictsIff400 | src/app/api/signup/route.ts:21-52 | 400 exactly when one of the two conflict checks fires. |
| SignUp.UnverifiedEmailOverwritten | src/app/api/signup/route.ts:53-62 | For an email held by an unverified user, only that record's password, code and expiry change. The code is a new six-digit one and the expiry is now plus one hour. No user is added, and the code is mailed. |
| SignUp.OverwriteWritten | src/app/api/signup/route.ts:53-62 | The write step for an unverified holder overwrites that record in place. |
| SignUp.InsertNewIff | src/app/api/signup/route.ts:63-75 | An insert succeeds exactly when mongoose validation and the unique indexes allow it. |
| SignUp.InsertNewAppends | src/app/api/signup/route.ts:63-75 | A successful insert appends the new unverified user with the one-hour expiry. |
| SignUp.NewEmailInsertsOne | src/app/api/signup/route.ts:63-75 | With no conflict and no holder of the email, exactly one new user is appended and mailed the code when validation and the indexes allow it. Otherwise the reply is 500 and nothing is written. |
| SignUp.InsertWritten | src/app/api/signup/route.ts:63-75 | The write step with no holder of the email is the insert. A refused insert is 500 with nothing written. |
| SignUp.MailFailureKeepsWrite | src/app/api/signup/route.ts:77-93 | A failed email turns the 201 into a 500 carrying the mailer's message, and does not undo the write. |
| SignUp.RegisteredUserCanVerify | src/app/api/signup/route.ts:63-103 | After a fresh registration, presenting the mailed code before the expiry to verify-code's decision procedure, with the new username as an input, verifies the account. |
| UsernameCheck.AvailableIff200 | src/app/api/check-username-unique/route.ts:16-53 | 200 exactly when the parameter is present, 4 to 20 characters long, and no user, verified or not, holds the trimmed name. Everything else is 400. |
| UsernameCheck.CheckUsername | src/app/api/check-username-unique/route.ts:12-53 | The handler answers 200 or 400, and succeeds exactly on 200. |
| UsernameCheck.RuleRejections | src/app/api/check-username-unique/route.ts:5-31 | A missing, too-short or too-long name gets 400 with its own message. |
| UsernameCheck.HolderBlocks | src/app/api/check-username-unique/route.ts:34-45 | A name any user holds gets 400 "Username already exists.". |
| UsernameCheck.AvailableNameRegisters | src/app/api/check-username-unique/route.ts:34-53 | A name reported available has no verified holder, and signing up with it and a fresh email appends exactly the new user. |
| UsernameCheck.FreeNameHasNoVerifiedHolder | src/app/api/check-username-unique/route.ts:34-36 | A name nobody holds has no verified holder. |
| Posts.NullIfEmpty | src/app/api/posts/route.ts:44-48 | `description \|\| null` is null exactly when the description is absent or empty, and otherwise the description. |
| Posts.ParamOr | src/app/api/posts/route.ts:96-97 | `searchParams.get(name) \|\| fallback`: an absent or empty parameter gives the fallback. |
| Posts.CreatePost | src/app/api/posts/route.ts:9-74 | A request adds at most one post. |
| Posts.SaveOutcome | src/app/api/posts/route.ts:44-61 | The two saves add at most one post. |
| Posts.Create | src/app/api/posts/route.ts:9-74 | The handler over the store leaves the posts and the reply as the outcome function says, and does not touch feedback or users. |
| Posts.CreatedIff | src/app/api/posts/route.ts:16-61 | 201 exactly when there is a session, the body passes the schema, the trimmed title is not blank, the new id is unused, every stored post has a link, and no stored post has the new link. |
| Posts.SaveIff | src/app/api/posts/route.ts:44-61 | The saves succeed exactly under the validation and index conditions. |
| Posts.CreatedPostIsStored | src/app/api/posts/route.ts:44-61 | A created post is appended and returned. It belongs to the session's user, has the trimmed title, a null or trimmed description, no votes or feedback, is open to feedback, and has the link APP_URL + "/feedbacks/" + id. |
| Posts.SavedPostIsStored | src/app/api/posts/route.ts:44-61 | What the two saves store on success. |
| Posts.FailureKeepsPosts | src/app/api/posts/route.ts:16-73 | Every failure is 400, 401 or 500 and leaves the posts as they were, except a failed second save. That 500 leaves the new post stored without a link. |
| Posts.LinklessPostBlocksCreation | src/app/api/posts/route.ts:50-52 | While a stored post lacks a link, no post can be created and nothing is written. |
| Posts.SelectAll | src/app/api/posts/route.ts:112-118 | `.select(...)` maps each post to its selected fields, one for one. |
| Posts.Matching | src/app/api/posts/route.ts:100-106 | Every listed post is the user's and matches the search in its title or description. |
| Posts.ListedPostsMatch | src/app/api/posts/route.ts:76-134 | Every 200 lists selections of the user's matching posts, newest first, at most the limit of them. |
| Posts.ParsedListMatches | src/app/api/posts/route.ts:95-134 | Once the query is parsed, every 200 has that shape. |
| Posts.PageHasShape | src/app/api/posts/route.ts:109-118 | A page is drawn from the matching posts, newest first, bounded by the limit. |
| Posts.PageFromOwnPosts | src/app/api/posts/route.ts:100-118 | Every entry of a page is the selection of one of the user's matching posts. |
| Posts.PageNewestFirst | src/app/api/posts/route.ts:113 | A page is ordered newest first. |
| Posts.EveryPostOnItsPage | src/app/api/posts/route.ts:95-118 | With a positive limit l, the i-th matching post, newest first, is entry i mod l of page i div l + 1. |
| Posts.PageHoldsPost | src/app/api/posts/route.ts:109-118 | The entry at offset off of a page with skip s is the (s + off)-th matching post. |
| Posts.RenderedQuery | src/app/api/posts/route.ts:95-97 | A query naming a page and a limit lists that page. |
| Posts.ParsedNumbersList | src/app/api/posts/route.ts:109-134 | Parsed numbers, a compiling pattern and a non-negative skip list the page. |
| Posts.ParsedQuery | src/app/api/posts/route.ts:95-97 | A query built from rendered numbers reads them back. |
| Posts.RenderedParam | src/app/api/posts/route.ts:96-97 | A parameter holding a rendered number reads back as that number. |
| Posts.TotalPagesCover | src/app/api/posts/route.ts:129 | With a positive limit, totalPages is the least number of pages of that size holding all matching posts. |
| Posts.PastLastPageIsEmpty | src/app/api/posts/route.ts:109-129 | Any page after the last is empty. |
| Posts.TotalIgnoresPage | src/app/api/posts/route.ts:121 | totalPosts counts every matching post, whatever the page. |
| Posts.NoSearchListsAllOwn | src/app/api/posts/route.ts:100-106 | Without a search, a post is listed exactly when it is the user's. |
| Posts.LinkFor | src/app/api/posts/route.ts:51 | The link `APP_URL/feedbacks/<id>`, with no contract of its own. CreatedPostIsStored states it on the stored post. |
| Posts.ListPosts | src/app/api/posts/route.ts:76-147 | The GET handler answers 200, 401 or 500. 401 means exactly no session. A failure carries no posts and no pagination. |
| Posts.ListParsed | src/app/api/posts/route.ts:95-121 | A 200 means exactly that page and limit are numbers, the search compiles or is empty, and the skip is not negative. Everything else is 500. |
| Posts.ListPage | src/app/api/posts/route.ts:109-134 | A page is a 200 for the requested page. totalPosts counts every matching post, totalPages is null exactly when the limit is 0, and a nonzero limit bounds the posts shown. |
| Posts.TotalPages | src/app/api/posts/route.ts:129 | `Math.ceil(totalPosts / limit)`, with no contract of its own. TotalPagesCover states it for a positive limit. |
| Posts.LimitOf | src/app/api/posts/route.ts:115 | `.limit(n)`, with no contract of its own. PageNewestFirst and PageHasShape state the bound it puts on a page. |
| Posts.ListDefaults | src/app/api/posts/route.ts:96-97 | An absent or empty page is page 1, and an absent or empty limit is 10, through the falsy `\|\|`. |
| TopPosts.SummarizeAll | src/app/api/dashboard/top-posts/route.ts:37-72 | Each qualifying post maps to its summary, one for one. |
| TopPosts.Candidates | src/app/api/dashboard/top-posts/route.ts:26-34 | Every candidate is the user's and has more than ten feedbacks. |
| TopPosts.ClassifyIsStrictMajority | src/app/api/dashboard/top-posts/route.ts:42-58 | Positive, Negative or Neutral exactly when that bucket strictly exceeds both others. Mixed exactly when none does. |
| TopPosts.AtMostOneMajority | src/app/api/dashboard/top-posts/route.ts:42-58 | At most one bucket strictly exceeds both others, so the order of the tests does not matter. |
| TopPosts.EngagementTiers | src/app/api/dashboard/top-posts/route.ts:61-63 | Very High exactly above 100, High exactly from 51 to 100, and Medium otherwise. |
| TopPosts.StatusIsAuthentication | src/app/api/dashboard/top-posts/route.ts:15-93 | As written: 401 exactly without a session, 500 exactly for a user who owns a post, and 200 with an empty list exactly for a user who owns none. |
| TopPosts.TopPostsOf | src/app/api/dashboard/top-posts/route.ts:8-95 | The handler as written answers 200, 401 or 500, and succeeds exactly on 200. |
| TopPosts.TopPostsIntended | src/app/api/dashboard/top-posts/route.ts:26-82 | The handler with population working answers 200 or 401, and succeeds exactly on 200. |
| TopPosts.OwnedPostFailsTopPosts | src/app/api/dashboard/top-posts/route.ts:26-93 | A user who owns any post gets 500 "Error fetching top posts." from the handler as written, where the intended handler answers 200. |
| TopPosts.IntendedStatusIsAuthentication | src/app/api/dashboard/top-posts/route.ts:15-82 | Intended: 401 with no posts without a session, and otherwise 200 with the ranking of the user's posts. |
| TopPosts.NoOwnPostsNoCandidates | src/app/api/dashboard/top-posts/route.ts:26-34 | A user without posts has no candidates and an empty ranking. |
| TopPosts.Ranked | src/app/api/dashboard/top-posts/route.ts:34-74 | The ranking, with no contract of its own. RankedShape, RankedFromQualifying and OmittedHaveNoMore state it. |
| TopPosts.Classify | src/app/api/dashboard/top-posts/route.ts:42-58 | The sentiment label, with no contract of its own. ClassifyIsStrictMajority states it. |
| TopPosts.EngagementOf | src/app/api/dashboard/top-posts/route.ts:61-63 | The engagement tier, with no contract of its own. EngagementTiers states it. |
| TopPosts.RankedShape | src/app/api/dashboard/top-posts/route.ts:73-74 | The list has min(5, number of qualifying posts) entries, with the most feedback first. |
| TopPosts.RankedFromQualifying | src/app/api/dashboard/top-posts/route.ts:34-72 | Every entry summarizes one of the user's posts with more than ten feedbacks, its count being that post's list length. |
| TopPosts.RankedEntryIsCandidate | src/app/api/dashboard/top-posts/route.ts:73-74 | Every entry is among the candidates' summaries. |
| TopPosts.SummaryOfCandidate | src/app/api/dashboard/top-posts/route.ts:34-72 | A candidate's summary summarizes a qualifying post. |
| TopPosts.OmittedHaveNoMore | src/app/api/dashboard/top-posts/route.ts:73-74 | A qualifying post left out has no more feedback than any listed one. |
| TopPosts.CandidateKept | src/app/api/dashboard/top-posts/route.ts:34 | Every qualifying post is a candidate. |
| RecentPosts.DescribeAll | src/app/api/dashboard/recent-posts/route.ts:50-73 | Each selected post maps to its description, one for one and in order. |
| RecentPosts.WindowPosts | src/app/api/dashboard/recent-posts/route.ts:27-34 | Every post of the window query is the user's and at most fourteen days old. |
| RecentPosts.ClassifyLeans | src/app/api/dashboard/recent-posts/route.ts:54-65 | Positive or Negative exactly when that bucket strictly exceeds both others, and Neutral otherwise. No Mixed. |
| RecentPosts.LabellingsAgree | src/app/api/dashboard/recent-posts/route.ts:54-65 | This route agrees with top-posts on Positive and Negative, and says Neutral where top-posts says Neutral or Mixed. |
| RecentPosts.RecentPostsOf | src/app/api/dashboard/recent-posts/route.ts:9-94 | The handler as written answers 200, 401 or 500, and succeeds exactly on 200. |
| RecentPosts.RecentPostsIntended | src/app/api/dashboard/recent-posts/route.ts:31-81 | The handler with population working answers 200 or 401, and succeeds exactly on 200. |
| RecentPosts.StatusIsAuthentication | src/app/api/dashboard/recent-posts/route.ts:16-92 | As written: 401 exactly without a session, 500 exactly for a user who owns a post, and otherwise 200. The list is always empty. |
| RecentPosts.OwnedPostFailsRecentPosts | src/app/api/dashboard/recent-posts/route.ts:31-92 | A user who owns any post gets 500 "Error fetching recent posts." from the handler as written, where the intended handler answers 200 with a nonempty list. |
| RecentPosts.IntendedStatusIsAuthentication | src/app/api/dashboard/recent-posts/route.ts:16-81 | Intended: 401 with no posts without a session, and otherwise 200. |
| RecentPosts.Selected | src/app/api/dashboard/recent-posts/route.ts:31-47 | The selection, with no contract of its own. WindowSelection, WindowKeepsNewest and FallbackIsNewest state it. |
| RecentPosts.Classify | src/app/api/dashboard/recent-posts/route.ts:54-65 | The sentiment label, with no contract of its own. ClassifyLeans states it. |
| RecentPosts.RepliesDescribeSelection | src/app/api/dashboard/recent-posts/route.ts:50-81 | Intended: the reply has the selection's length and order. Each engagement is that post's feedback count. |
| RecentPosts.WindowSelection | src/app/api/dashboard/recent-posts/route.ts:31-38 | With posts in the window, the selection has one to five of them, newest first. |
| RecentPosts.WindowKeepsNewest | src/app/api/dashboard/recent-posts/route.ts:31-38 | No window post left out is newer than a selected one. |
| RecentPosts.FallbackIsNewest | src/app/api/dashboard/recent-posts/route.ts:41-47 | With an empty window, the selection is the user's newest post, or empty exactly when the user has no posts. |
| RecentPosts.NewestOwnPost | src/app/api/dashboard/recent-posts/route.ts:42-46 | `sort({ createdAt: -1 }).limit(1)` yields a newest post of the user's, if any. |
| Stats.Ids | src/app/api/dashboard/stats/route.ts:29-30 | The ids of the user's posts, one for one. |
| Stats.FeedbackOn | src/app/api/dashboard/stats/route.ts:32-34 | `countDocuments({ postId: { $in: postIds } })`: the records whose post id is in the list. |
| Stats.StatsOf | src/app/api/dashboard/stats/route.ts:15-62 | The handler answers 200 or 401, with counters exactly on 200. |
| Stats.Count | src/app/api/dashboard/stats/route.ts:26-49 | The average's denominator is positive, and totalFeedback never exceeds the stored feedback. |
| Stats.StatusIsAuthentication | src/app/api/dashboard/stats/route.ts:15-20 | 401 with no counters without a session, 200 with counters with one. |
| Stats.AverageIsGuarded | src/app/api/dashboard/stats/route.ts:37-38 | The average never divides by zero. It is 0 without posts, and otherwise totalFeedback over totalPosts. |
| Stats.WeeklyGrowthCountsOlderPosts | src/app/api/dashboard/stats/route.ts:41-49 | weeklyGrowth is the number of the user's posts more than a week old, so never negative. |
| Stats.NoPostsNoFeedback | src/app/api/dashboard/stats/route.ts:29-34 | A user without posts has no feedback counted. |
| Stats.FeedbackOnIsPerPostSum | src/app/api/dashboard/stats/route.ts:32-34 | Over distinct ids, the `$in` count is the sum of the per-post counts. |
| Stats.TotalFeedbackIsPerPostSum | src/app/api/dashboard/stats/route.ts:26-34 | totalFeedback counts exactly the feedback on the user's posts, each once. |
| Stats.FilterDistinct | src/app/api/dashboard/stats/route.ts:29 | Selecting the user's posts keeps ids distinct. |
| Stats.SameKeysSameIds | src/app/api/dashboard/stats/route.ts:29-30 | Posts with the same ids and owners give every user the same id list. |
| Stats.AppendedFeedbackCounts | src/app/api/dashboard/stats/route.ts:26-34 | One stored feedback on the k-th post raises its owner's totalFeedback by one, and nobody else's. Post counts stay. |
| Stats.OwnerListsId | src/app/api/dashboard/stats/route.ts:29-30 | A post's id is among a user's ids exactly when that user owns it. |
| Stats.OwnIdListed | src/app/api/dashboard/stats/route.ts:29-30 | An owned post's id is listed. |
| Stats.OtherIdNotListed | src/app/api/dashboard/stats/route.ts:29-30 | Another user's post id is not listed. |
| Stats.SamePostCount | src/app/api/dashboard/stats/route.ts:26 | Posts with the same ids and owners give every user the same post count. |
| PostDetails.HandleFeedbackVote | src/components/custom/PostDetails.tsx:74-105 | A feedback vote keeps the list's length. |
| PostDetails.HandlePostVote | src/components/custom/PostDetails.tsx:58-72 | A request is made exactly when a post is loaded, and a loaded post stays loaded. |
| PostDetails.NoPostNoRequest | src/components/custom/PostDetails.tsx:59 | Without a loaded post, no request is made and nothing changes. |
| PostDetails.PostVoteReplacesTotals | src/components/custom/PostDetails.tsx:58-72 | A post vote replaces likes and dislikes with the response's totals and keeps every other field. A falsy response keeps the post. |
| PostDetails.FalsyResponseKeepsFeedback | src/components/custom/PostDetails.tsx:80 | A falsy feedback-vote response leaves the list untouched. |
| PostDetails.FeedbackVoteTouchesOnlyTarget | src/components/custom/PostDetails.tsx:82-100 | Only the voted feedback changes, and only in the voted counter, by exactly one. Order and length are kept. |
| PostDetails.FeedbackVotesCommute | src/components/custom/PostDetails.tsx:82-100 | Two feedback votes give the same list in either order. |
| PostDetails.BumpsCommute | src/components/custom/PostDetails.tsx:87-96 | Two counter bumps commute. |
| PostDetails.NeverBothHighlighted | src/components/custom/PostDetails.tsx:122-128 | Like is highlighted exactly when likes > dislikes, and dislike exactly when dislikes > likes. They are never highlighted together. |

## Left out

- Database I/O, connection handling and concurrency are left out. Each request runs alone against in-memory collections, and interleaved requests are not modelled. For example, two simultaneous submissions can both pass the duplicate scan.
- bcrypt is an abstract pair of functions, `hash` and `verify`. The only property relied on is that an address verifies against its own hash, and it is a precondition where used. Cost, salt rounds and timing are left out.
- `uuid()`, the ObjectIds mongoose assigns, `Math.random()`, the clock, the client address, NODE_ENV and APP_URL are parameters. A random draw is a natural number reduced modulo 900000.
- Dates are integer milliseconds. `setDate(getDate() - 14)`, `setDate(getDate() - 7)` and `setHours(getHours() + 1)` are fixed offsets, so daylight-saving shifts are ignored.
- The NextAuth session is an optional user id. `new mongoose.Types.ObjectId(user._id)` is left out. It appears at src/app/api/posts/route.ts:22 and :90, src/app/api/dashboard/top-posts/route.ts:22 and src/app/api/dashboard/recent-posts/route.ts:23.
- Regular expressions are parameters. Mongo's `$regex` with option "i" is a compile test and a match test. The User email pattern, which carries the `g` flag, is a predicate on strings. Mongoose's `match` validator resets `lastIndex` before each test, so the flag carries no state between calls. zod's `.email()` is a predicate as well.
- `averageEngagement` is the exact ratio. `toFixed(2)` and `parseFloat`, which round it, are floating point and left out.
- In `TopPostsIntended` and `RecentPostsIntended`, a working `populate("feedbacks", "_id")` is replaced by the stored id list, so the model counts ids. Dangling ids that population would drop are still counted.
- Mongo orders equal `createdAt` values in an unspecified way. The model sorts stably in collection order.
- Strings are sequences of code points. JavaScript measures lengths in UTF-16 code units, so lengths differ for characters outside the Basic Multilingual Plane.
- The catch blocks append the error's text to "Error registering user. ", "Error verifying user. " and "Error checking username. ". The model keeps the fixed prefix only. The parser's message for a body that is not JSON is also left out.
- Posts.CreatePost: on a duplicate key, its `error` text is only the "E11000 duplicate key error" prefix. The driver's full message goes on with the collection, the index and the key, for example "collection: <db>.posts index: link_1 dup key: { link: null }". Models.InsertPost, Models.SetLink, Models.InsertUser and Models.InsertFeedbackVote return the same prefix. The validation texts are modelled in full.
- FeedbackSubmission.Reply, TopPosts.TopReply, RecentPosts.RecentReply and Posts.ListReply: their 500 replies leave out the `error` field. That field carries the thrown error's message, such as a CastError, ValidatorError or MissingSchemaError text. It appears at src/app/api/feedbacks/route.ts:126, src/app/api/dashboard/top-posts/route.ts:90, src/app/api/dashboard/recent-posts/route.ts:89 and src/app/api/posts/route.ts:142, the GET handler's catch block. The same field at src/app/api/dashboard/stats/route.ts:70 is also left out; no modelled path of the stats route throws.
- The sign-up validation reply lists zod's issue objects. The model lists their messages only.
- The check-username-unique catch block (500) is left out, because nothing in the model can throw there.
- VerifyCode.VerifyOutcome: takes the username as a plain input, so the model does not capture that the route as written does not look up the named user. src/app/api/verify-code/route.ts:22 reads `username` from zod's parsed `data`, and verifySchema declares only `code` (src/schemas/verifySchema.ts:3-7). zod drops undeclared keys, so `username` is undefined and the `findOne({ username })` at lines 24-26 ignores the name the client sent. The model's lemmas about verification hold of the decision procedure given a username.
- Common.ParseInt: reads any digit run exactly, as an unbounded integer. JavaScript's `parseInt` returns a double, so at src/app/api/posts/route.ts:96-97 a digit string above 2^53 rounds, and one of more than about 308 digits becomes Infinity. `(page - 1) * limit` and `.limit()` then receive values that are not integers. That range is not modelled.
- verify-code does not wait for the reissue email. The model records the email handed to the mailer, and its delivery is not modelled.
- The vote route handlers that PostDetails calls (`/posts/vote/…`, `/feedbacks/votes/…`) are not part of this model. Only the vote record shapes and the client-side updates are.
- React state setters, rendering, toasts and the other buttons of the PostDetails view are left out.
- `password` is stored as given. Sign-up does not hash it, and the model does not either.
- The JSON number type is restricted to integers. No field the model reads holds a fraction.
- The MongoDB driver reads `.limit(n)` with a negative n as one batch of at most |n| documents. The model keeps at most |n| posts and leaves out the cursor's batching. A limit of 0 means no limit, and totalPages is then `Infinity` or `NaN`, which JSON renders as null.

## Findings

| source | as written | input that shows it | evidently intended | confidence | as-written member | corrected member |
|---|---|---|---|---|---|---|
| src/app/api/dashboard/top-posts/route.ts:26-31 | `populate("feedbacks", "_id")` names the ref "feedbacks" (src/models/post.model.ts:35). No model has that name; the Feedback model is "Feedback" (src/models/feedback.model.ts:37-39). The query throws, and the catch block answers 500. | a signed-in user who owns one post (TopPosts.OwnedPostFailsTopPosts) | 200 with that user's ranking, with the properties RankedShape, RankedFromQualifying and OmittedHaveNoMore prove | not executed; medium, it rests on mongoose raising MissingSchemaError for an unregistered ref | TopPosts.TopPostsOf | TopPosts.TopPostsIntended |
| src/app/api/dashboard/recent-posts/route.ts:31-47 | Both queries populate through the same ref, so any query that returns a post throws and ends in 500 | a signed-in user who owns one post (RecentPosts.OwnedPostFailsRecentPosts) | 200 with the recent posts, with the properties WindowSelection, WindowKeepsNewest and FallbackIsNewest prove | not executed; medium, for the same reason | RecentPosts.RecentPostsOf | RecentPosts.RecentPostsIntended |
