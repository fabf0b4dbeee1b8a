# Social-media backend: controllers and edge-security middleware

This project models the request handlers of a small social-media backend
(posts, likes, comments, follows, identity sync, profiles) and its
edge-security middleware, and proves properties of the model in Dafny.

- **Store** (`doc_store.dfy`, module `DocStore`): the document database is a
  class `Db` holding one map per collection (`users`, `posts`, `comments`,
  `notifications`) and one id counter. Records refer to each other by id.
  The reference arrays `likes`, `comments`, `followers` and `following` are
  sequences. A larger id means a later creation, which stands in for the
  `createdAt` sort key. `Valid()` says every stored id came from the counter
  and the identity provider's subject id (`clerkId`) is unique among users.
- **Handlers** (`post_controller.dfy`, `user_controller.dfy`,
  `comment_controller.dfy`): each handler is a method on the store. It returns
  the HTTP status it answers with and changes the maps in place. Its `ensures`
  give the whole new state for every branch. A handler that throws appears as
  500, the status the error handler answers with. The writes the handler made
  before the throw stay in place.
- **Array updates** (`seq_ops.dfy`): `$push` is appending, and `$pull`
  (`Pull`) removes every occurrence. The like and follow toggles are
  `Toggle`. Lemmas show that a toggle keeps an array duplicate-free and that
  toggling twice restores the array.
- **JavaScript semantics** (`js.dfy`):
  - `x.toString() !== y.toString()` on ids compares their text. Here an id is
    a natural number and its text is its decimal digits. The rendering is
    proved injective, so comparing texts is comparing ids.
  - `trim` removes the ECMAScript whitespace and line-terminator characters.
  - `split("@")[0]` is `FirstField`.
  - `!` on a string yields a boolean.
- **Middleware** (`arcjet_middleware.dfy`): a pure classifier from the
  security service's decision to 429, 403 or passing the request on. It fails
  open when the service throws.
- **Scenarios** (`scenarios.dfy`): concrete runs. Two users sync; one follows
  and then unfollows the other; one user follows itself through the
  as-written guard; a subject id syncs twice.

## Model

| member | source | states |
|---|---|---|
| DocStore.Db.UserByClerk | src/controllers/user.controller.js:30 | `findOne({ clerkId })` finds the user with that subject id when one exists, and `None` exactly when no user has it |
| DocStore.Db.Notify | src/controllers/user.controller.js:100-104 | `Notification.create` stores the notification under a fresh id; every other collection is unchanged |
| SeqOps.Pull | src/controllers/post.controller.js:125-127 | `$pull` keeps exactly the members other than the pulled value and never grows the array |
| SeqOps.PullCounts | src/controllers/comment.controller.js:73-76 | `$pull` removes every copy of the value and keeps every other entry with its number of occurrences |
| SeqOps.PullConcat | src/controllers/comment.controller.js:73-76 | `$pull` works entry by entry: pulling from a concatenation concatenates the pulled parts, so the surviving entries keep their order |
| SeqOps.PullUnique | src/controllers/comment.controller.js:73-76 | pulling a value that occurs once removes just that entry, and the other entries stay in order |
| SeqOps.PullKeepsNoDup | src/controllers/post.controller.js:125-127 | pulling from a duplicate-free array leaves it duplicate-free |
| SeqOps.Toggle | src/controllers/post.controller.js:121-132 | after the like toggle, the actor is present exactly when it was absent before, and every other member is unchanged |
| SeqOps.ToggleKeepsNoDup | src/controllers/post.controller.js:121-132 | a `likes` (or edge) array with no duplicates never gains one through the toggle |
| SeqOps.ToggleTwiceRestores | src/controllers/post.controller.js:121-132 | a like followed by an unlike from an actor who had not liked restores `likes` exactly |
| SeqOps.ToggleTwiceSameMembers | src/controllers/post.controller.js:121-132 | two toggles by the same actor always restore `likes` as a set of members |
| SeqOps.SortedDesc | src/controllers/comment.controller.js:11-12 | `sort({ createdAt: -1 })` over a set of ids yields exactly those ids, newest first, with no repetition |
| Js.Not | src/controllers/post.controller.js:135 | `!` on a value yields a boolean, which is true exactly when the value is falsy |
| Js.IdText | src/controllers/post.controller.js:160 | `toString()` of an id is a non-empty string of decimal digits, one digit exactly for ids below ten |
| Js.IdTextInjective | src/controllers/post.controller.js:160 | two ids with the same text are the same id |
| Js.SameIdText | src/controllers/comment.controller.js:67 | comparing `toString()` of two ids is the same as comparing the ids |
| Js.TrimStart | src/controllers/comment.controller.js:23 | the leading part `trim` drops is all whitespace, and what remains is empty or starts with a non-space |
| Js.TrimEnd | src/controllers/comment.controller.js:23 | the trailing part `trim` drops is all whitespace, and what remains is empty or ends with a non-space |
| Js.Trim | src/controllers/comment.controller.js:23 | `trim` never lengthens the string, and the result is empty or begins and ends with a non-space |
| Js.TrimEmptyIffBlank | src/controllers/comment.controller.js:23 | `content.trim() === ""` holds exactly when the content is only whitespace |
| Js.FirstField | src/controllers/user.controller.js:45 | `split("@")[0]` is the longest prefix without `@`; it is the whole string when there is no `@` |
| PostController.GetPosts | src/controllers/post.controller.js:9-22 | 200 with every post, newest first |
| PostController.GetPost | src/controllers/post.controller.js:24-40 | 200 with the post when it exists, otherwise 404 |
| PostController.GetUserPosts | src/controllers/post.controller.js:42-62 | 404 exactly when no user has the username; otherwise exactly that user's posts, newest first |
| PostController.CreatePost | src/controllers/post.controller.js:64-109 | no content and no file gives 404 with nothing created; a failed upload gives 400 with nothing created; otherwise 201 and one new post with the content, the image URL or `""`, empty arrays and an undefined owner; no other collection changes |
| PostController.LikeGuardAlwaysHolds | src/controllers/post.controller.js:135 | the notification guard as written holds for every owner and actor, the actor's own post included |
| PostController.LikeGuardIntendedSuppressesSelf | src/controllers/post.controller.js:135 | the intended guard holds exactly when the actor does not own the post |
| PostController.ToggleLike | src/controllers/post.controller.js:121-132 | reports whether the actor had liked, and replaces only that post's `likes` with its toggle |
| PostController.LikePost | src/controllers/post.controller.js:111-148 | 404 with no change when the caller or the post is missing. An unlike pulls the actor and creates no notification. A like appends the actor and creates exactly one "like" notification to the owner, self-likes included. It gives 500 after the push when the owner is undefined |
| PostController.LikePostIntended | src/controllers/post.controller.js:111-148 | as `LikePost`, except that a self-like creates no notification, so no notification is ever addressed to its sender |
| PostController.DeleteCommentsOf | src/controllers/post.controller.js:166-167 | `deleteMany({ post })` keeps exactly the comments of other posts, unchanged |
| PostController.DeletePost | src/controllers/post.controller.js:150-173 | 404 when the caller or the post is missing and 403 when the caller is not the owner, both with no change. Success removes the post and every comment on it; other posts, other comments, users and notifications are untouched |
| UserController.NewUser | src/controllers/user.controller.js:40-47 | a new user has the subject id and the first email. Its username is the email up to the first `@`, or the whole email when there is none. First name, last name and picture are the profile's values, or `""` when the profile has none. It starts with no followers and no followings |
| UserController.GetUserProfile | src/controllers/user.controller.js:6-13 | 200 with a user having the username, or 404 exactly when none has it |
| UserController.GetCurrentUser | src/controllers/user.controller.js:54-61 | 200 with the caller's record, or 404 exactly when the subject id has no record |
| UserController.ApplyPatch | src/controllers/user.controller.js:17-19 | the subject id and the edge arrays are kept. Each of email, first name, last name, username and picture takes the supplied value, or keeps the stored one when not supplied. An empty body changes nothing |
| UserController.UpdateProfile | src/controllers/user.controller.js:15-24 | 404 with no change when the caller has no record; otherwise only that user changes, and only in the supplied fields |
| UserController.SyncUser | src/controllers/user.controller.js:26-52 | an existing subject id returns its user with no change; otherwise one `NewUser` is created. It gives 500 with no change when the identity has no email address. After a 200, the subject id finds the returned user |
| UserController.AddEdge | src/controllers/user.controller.js:91-97 | the follow pushes append the target to the caller's `following` and the caller to the target's `followers`. Every other field of the two records is unchanged; for a self-follow both arrays of the one record gain it. Keys, subject ids and other users are unchanged |
| UserController.RemoveEdge | src/controllers/user.controller.js:82-89 | the unfollow pulls remove the target from `following` and the caller from the target's `followers`. Every other field of the two records is unchanged; when both are one user, both of its arrays are pulled. Keys, subject ids and other users are unchanged |
| UserController.AddEdgeKeepsSymmetric | src/controllers/user.controller.js:91-97 | following keeps both sides of every edge in agreement |
| UserController.RemoveEdgeKeepsSymmetric | src/controllers/user.controller.js:82-89 | unfollowing keeps both sides of every edge in agreement |
| UserController.RemoveAfterAdd | src/controllers/user.controller.js:79-105 | a follow then an unfollow of a user not yet followed restores the user table exactly |
| UserController.AddEdgeKeepsNoSelfEdges | src/controllers/user.controller.js:91-97 | following another user never creates a self-edge |
| UserController.RemoveEdgeKeepsNoSelfEdges | src/controllers/user.controller.js:82-89 | unfollowing never creates a self-edge |
| UserController.ToggleFollow | src/controllers/user.controller.js:79-105 | when already following: both pulls and no notification. Otherwise: both pushes and exactly one "follow" notification from caller to target |
| UserController.Unfollow | src/controllers/user.controller.js:82-89 | the users table becomes `RemoveEdge` of the old one |
| UserController.Follow | src/controllers/user.controller.js:91-104 | the users table becomes `AddEdge` of the old one, plus one "follow" notification |
| UserController.SelfFollowSlipsThrough | src/controllers/user.controller.js:70-71 | a subject id holding any character other than a decimal digit (such as "user_2a") is never refused by the self-follow guard, whatever the target, the caller's own local id included |
| UserController.FollowUser | src/controllers/user.controller.js:63-112 | 400 with no change when the subject id equals the target id text; 404 with no change when the caller or the target is missing; otherwise 200 with the follow toggle. It keeps edges symmetric |
| UserController.FollowUserIntended | src/controllers/user.controller.js:63-112 | looks up first and refuses a caller targeting itself with 400, so no user ever follows itself; edges stay symmetric |
| CommentController.GetComments | src/controllers/comment.controller.js:8-16 | exactly the comments of the post, newest first |
| CommentController.ContentMissing | src/controllers/comment.controller.js:23 | `!content \|\| content.trim() === ""` holds exactly when the content is only whitespace, empty included |
| CommentController.CreateComment | src/controllers/comment.controller.js:18-55 | 400 for blank content, before any lookup; 404 when the caller or the post is missing; both with no change. Otherwise one comment with the untrimmed content, its id appended to the post's `comments`, and the notification outcome of `Notified` |
| CommentController.CommentOn | src/controllers/comment.controller.js:33-52 | stores and attaches the comment. Then: 500 when the owner is undefined; no notification when the caller owns the post; otherwise exactly one "comment" notification to the owner |
| CommentController.Attach | src/controllers/comment.controller.js:33-42 | the new comment is stored under a fresh id and appended at the end of its post's `comments` |
| CommentController.DeleteComment | src/controllers/comment.controller.js:57-82 | 404 when the caller or the comment is missing and 403 when the caller is not its owner, both with no change. Success pulls only that id from the parent's `comments` and deletes the comment record |
| ArcjetMiddleware.AnySpoofedBot | src/middleware/arcjetMiddleware.js:31-35 | `results.some(...)` holds exactly when some result is both a bot and spoofed |
| ArcjetMiddleware.Classify | src/middleware/arcjetMiddleware.js:4-47 | answers only 429 or 403. It passes exactly when `protect` threw, or when the decision is allowed with no spoofed bot. It answers 429 exactly when denied for a rate limit |
| ArcjetMiddleware.DenialClassified | src/middleware/arcjetMiddleware.js:11-27 | a rate-limit denial is 429 even when the reason is also a bot; a non-rate-limit bot denial is 403 "Bot access denied"; any other denial is 403 "Forbidden" |
| ArcjetMiddleware.SpoofedBotBlocks | src/middleware/arcjetMiddleware.js:31-40 | an allowed decision with a spoofed-bot result at any position is answered 403 "Spoofed bot detected." |
| ArcjetMiddleware.SpoofedBotAppendedBlocks | src/middleware/arcjetMiddleware.js:31-40 | adding a spoofed-bot result to any allowed decision blocks it, whatever the other results say |
| Scenarios.TwoUsers | src/controllers/user.controller.js:26-52 | syncing two new subject ids creates two users whose `followers` and `following` are all empty, and no notifications |
| Scenarios.FollowScenario | src/controllers/user.controller.js:63-112 | after one follow, the edge is on both sides, and the only notification is the follow from the caller to the target |
| Scenarios.AFollowsB | src/controllers/user.controller.js:63-112 | on the two-user store, one follow request records the edge on both sides and creates the one follow notification |
| Scenarios.FollowThenUnfollow | src/controllers/user.controller.js:79-105 | a second follow call unfollows: both arrays are empty again and no new notification is created |
| Scenarios.SelfFollowAsWritten | src/controllers/user.controller.js:70-71 | as written, a lone user can follow itself. It ends up in its own `following` and `followers` and receives a follow notification from itself |
| Scenarios.SyncTwice | src/controllers/user.controller.js:30-49 | two sequential syncs of one subject id add at most one user, and afterwards the id finds a user unless neither profile had an email |

## Left out

- Image upload to the media CDN (base64 encoding, transformation): an external call. Its result is an input, `ImageFile`, which is either the uploaded URL or a failure.
- Authentication (`getAuth`) and the identity provider's profile lookup: external calls. The subject id and the profile (emails, names, image) are inputs. A failing profile lookup is not modelled.
- `populate` projections and `createdAt` timestamps: ids come from one increasing counter, and creation order is id order.
- PostController.CreatePost: the owner lookup at src/controllers/post.controller.js:74 is not awaited. So the "User not found" branch can never fire, the caller's subject id is never used, and the post is stored with an undefined owner.
- PostController.CreatePost: the model stores the post with an undefined owner. The model files are not part of this model, so it does not say whether a `required` owner would make the store reject it.
- PostController.GetPost: modelled as a lookup by post id. The handler as written passes the whole `req.params` object to `findById`.
- PostController.GetUserPosts: the "Posts not found" branch is left out. `find` returns an array, which is never falsy, so that branch never fires.
- Ids are natural numbers, and their text is their decimal digits. The store's real ids are 24 hexadecimal digits. Only injectivity of the text matters to the ownership and notification guards, and the decimal rendering has it (`Js.IdTextInjective`).
- Ids that are malformed (a `CastError` from `findById`) are not modelled; ids are naturals.
- Schema validation, required fields and unique indexes are not part of this model. Uniqueness of `clerkId` is an invariant of the store (`Valid`); usernames are not assumed unique. `findOne({ username })` may return any user with that name.
- UserController.UpdateProfile: a body may supply only the profile fields (email, names, username, picture). A body that rewrites `clerkId`, `_id` or the edge arrays is not modelled.
- UserController.FollowUser: `following.includes(targetedUserId)` compares an id string with stored ids. It is modelled as membership of the target id.
- Partial failure between the two follow updates, and concurrent requests: every handler is atomic and requests run one at a time.
- The response bodies (JSON messages and populated records): handlers return the status and the ids they answer with. The middleware's error texts are kept.
- Server wiring, routing, the database connection and the rate-limit configuration: the token bucket and bot detection run inside the security library, and their decision is an input.

## Findings

| source | as written | input that shows it | evidently intended | confidence | as-written member | corrected member |
|---|---|---|---|---|---|---|
| src/controllers/post.controller.js:135 | `!post.user.toString() !== user._id.toString()` compares a boolean with a string, so it is always true | a user likes their own post: a "like" notification from the user to itself is created | `post.user.toString() !== user._id.toString()`: no notification for a self-like | not executed | PostController.LikeGuardAlwaysHolds | PostController.LikePostIntended |
| src/controllers/user.controller.js:70 | `userId === targetedUserId` compares the identity provider's subject id with a local user id, so it never matches a real self-follow | subject id "user_2a" whose local user id is 7 follows target 7: the request passes and the user follows itself | compare the caller's local id with the target after the lookup and answer 400 | not executed | UserController.SelfFollowSlipsThrough | UserController.FollowUserIntended |
