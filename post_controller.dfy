/**
 * The post handlers: listing and lookup, creation with the content-or-image
 * guard, the like toggle with its notification, and owner-only deletion
 * that cascades to the post's comments.
 */
module PostController {
  import opened DocStore
  import opened SeqOps
  import Js
  import Http

  /** What the media CDN made of the uploaded file. */
  datatype ImageFile = Uploaded(url: string) | UploadFailed

  /** The image reference a new post stores: the CDN's URL, or "" without a file. */
  function ImageUrl(file: Option<ImageFile>): string
  {
    if file.Some? && file.value.Uploaded? then file.value.url else ""
  }

  /** `getPosts`: every post, newest first. */
  method GetPosts(db: Db) returns (status: int, ids: seq<PostId>)
    ensures status == Http.Ok
    ensures forall p :: p in ids <==> p in db.posts
    ensures Decreasing(ids)
  {
    status := Http.Ok;
    ids := SortedDesc(db.posts.Keys);
  }

  /** `getPost`, as a lookup of the post table. */
  method GetPost(db: Db, postId: PostId) returns (status: int, post: Option<Post>)
    ensures postId in db.posts ==> status == Http.Ok && post == Some(db.posts[postId])
    ensures postId !in db.posts ==> status == Http.NotFound && post == None
  {
    if postId !in db.posts {
      return Http.NotFound, None;
    }
    status, post := Http.Ok, Some(db.posts[postId]);
  }

  /** `getUserPosts`: 404 when no user has the username; otherwise the posts
      owned by the user found, newest first. */
  method GetUserPosts(db: Db, username: string) returns (status: int, owner: Option<UserId>, ids: seq<PostId>)
    ensures status == Http.Ok || status == Http.NotFound
    ensures status == Http.Ok <==> owner.Some?
    ensures owner.None? <==> forall u :: u in db.users ==> db.users[u].username != username
    ensures owner.Some? ==> owner.value in db.users && db.users[owner.value].username == username
    ensures forall p :: p in ids <==> owner.Some? && p in db.posts && db.posts[p].owner == owner
    ensures Decreasing(ids)
  {
    if u :| u in db.users && db.users[u].username == username {
      owner := Some(u);
      ids := SortedDesc(set p | p in db.posts && db.posts[p].owner == owner);
      status := Http.Ok;
    } else {
      status, owner, ids := Http.NotFound, None, [];
    }
  }

  /** `createPost` as written. An empty post is refused with 404; a failed
      upload with 400. The owner lookup is never awaited, so it neither
      refuses an unknown caller nor supplies an owner: the new post's owner
      is undefined, and `clerkId` reaches nothing. */
  method CreatePost(db: Db, clerkId: string, content: string, file: Option<ImageFile>)
    returns (status: int, id: Option<PostId>)
    requires db.Valid()
    modifies db
    ensures db.Valid()
    ensures db.users == old(db.users) && db.comments == old(db.comments)
    ensures db.notifications == old(db.notifications)
    ensures status == Http.Created <==> id.Some?
    ensures content == "" && file.None? ==> status == Http.NotFound && unchanged(db)
    ensures (content != "" || file.Some?) && file == Some(UploadFailed) ==>
      status == Http.BadRequest && unchanged(db)
    ensures (content != "" || file.Some?) && file != Some(UploadFailed) ==>
      && status == Http.Created
      && id == Some(old(db.nextId))
      && db.nextId == old(db.nextId) + 1
      && db.posts == old(db.posts)[old(db.nextId) := Post(None, content, ImageUrl(file), [], [])]
  {
    if content == "" && file.None? {
      return Http.NotFound, None;
    }
    var imageUrl := "";
    if file.Some? {
      match file.value
      case UploadFailed =>
        return Http.BadRequest, None;
      case Uploaded(url) =>
        imageUrl := url;
    }
    var postId := db.NewId();
    db.posts := db.posts[postId := Post(None, content, imageUrl, [], [])];
    status, id := Http.Created, Some(postId);
  }

  /** The notification guard of `likePost` as written: `!owner.toString() !== actor.toString()`
      compares a boolean with a string, so it never fails. */
  predicate LikeGuardAsWritten(owner: UserId, actor: UserId)
  {
    Js.StrictNotEquals(Js.Not(Js.Str(Js.IdText(owner))), Js.Str(Js.IdText(actor)))
  }

  /** The guard evidently intended: `owner.toString() !== actor.toString()`. */
  predicate LikeGuardIntended(owner: UserId, actor: UserId)
  {
    Js.StrictNotEquals(Js.Str(Js.IdText(owner)), Js.Str(Js.IdText(actor)))
  }

  /** The guard as written notifies on every like, self-likes included. */
  lemma LikeGuardAlwaysHolds(owner: UserId, actor: UserId)
    ensures LikeGuardAsWritten(owner, actor)
  {
  }

  /** The intended guard holds exactly when the actor is not the owner. */
  lemma LikeGuardIntendedSuppressesSelf(owner: UserId, actor: UserId)
    ensures LikeGuardIntended(owner, actor) <==> owner != actor
  {
    if !LikeGuardIntended(owner, actor) {
      Js.IdTextInjective(owner, actor);
    }
  }

  /** The like toggle on one post: pull the actor if present, push it otherwise. */
  method ToggleLike(db: Db, uid: UserId, postId: PostId) returns (wasLiked: bool)
    requires db.Valid() && postId in db.posts
    modifies db`posts
    ensures db.Valid()
    ensures wasLiked <==> uid in old(db.posts)[postId].likes
    ensures db.posts == old(db.posts)[postId := old(db.posts)[postId].(likes := Toggle(old(db.posts)[postId].likes, uid))]
  {
    var post := db.posts[postId];
    wasLiked := uid in post.likes;
    if wasLiked {
      db.posts := db.posts[postId := post.(likes := Pull(post.likes, uid))];
    } else {
      db.posts := db.posts[postId := post.(likes := post.likes + [uid])];
    }
  }

  /** `likePost` as written. 404 when the caller or the post is missing. An
      unlike only pulls. A like pushes, then notifies the owner, self-likes
      included; when the owner is undefined, reading it throws after the push. */
  method LikePost(db: Db, clerkId: string, postId: PostId) returns (status: int)
    requires db.Valid()
    modifies db
    ensures db.Valid()
    ensures db.users == old(db.users) && db.comments == old(db.comments)
    ensures old(db.UserByClerk(clerkId)).None? || postId !in old(db.posts) ==>
      status == Http.NotFound && unchanged(db)
    ensures old(db.UserByClerk(clerkId)).Some? && postId in old(db.posts) ==>
      var uid := old(db.UserByClerk(clerkId)).value;
      var p := old(db.posts)[postId];
      var nid := old(db.nextId);
      && db.posts == old(db.posts)[postId := p.(likes := Toggle(p.likes, uid))]
      && (if uid in p.likes then
            status == Http.Ok && db.notifications == old(db.notifications) && db.nextId == nid
          else if p.owner.None? then
            status == Http.ServerError && db.notifications == old(db.notifications) && db.nextId == nid
          else
            && status == Http.Ok
            && db.nextId == nid + 1
            && db.notifications == old(db.notifications)[nid := Notification(uid, p.owner.value, LikeKind, Some(postId), None)])
  {
    var user := db.UserByClerk(clerkId);
    if user.None? {
      return Http.NotFound;
    }
    if postId !in db.posts {
      return Http.NotFound;
    }
    var uid := user.value;
    var post := db.posts[postId];
    var wasLiked := ToggleLike(db, uid, postId);
    if !wasLiked {
      if post.owner.None? {
        return Http.ServerError;
      }
      if LikeGuardAsWritten(post.owner.value, uid) {
        var nid := db.NewId();
        db.notifications := db.notifications[nid := Notification(uid, post.owner.value, LikeKind, Some(postId), None)];
      }
    }
    status := Http.Ok;
  }

  /** No notification in the table is addressed to its own sender. */
  ghost predicate NoSelfNotification(notifications: map<NotificationId, Notification>)
  {
    forall n :: n in notifications ==> notifications[n].sender != notifications[n].recipient
  }

  /** `likePost` with the intended guard: identical, except that a self-like
      creates no notification, so the table never gains a self-notification. */
  method LikePostIntended(db: Db, clerkId: string, postId: PostId) returns (status: int)
    requires db.Valid()
    modifies db
    ensures db.Valid()
    ensures db.users == old(db.users) && db.comments == old(db.comments)
    ensures NoSelfNotification(old(db.notifications)) ==> NoSelfNotification(db.notifications)
    ensures old(db.UserByClerk(clerkId)).None? || postId !in old(db.posts) ==>
      status == Http.NotFound && unchanged(db)
    ensures old(db.UserByClerk(clerkId)).Some? && postId in old(db.posts) ==>
      var uid := old(db.UserByClerk(clerkId)).value;
      var p := old(db.posts)[postId];
      var nid := old(db.nextId);
      && db.posts == old(db.posts)[postId := p.(likes := Toggle(p.likes, uid))]
      && (if uid in p.likes || p.owner == Some(uid) then
            status == Http.Ok && db.notifications == old(db.notifications) && db.nextId == nid
          else if p.owner.None? then
            status == Http.ServerError && db.notifications == old(db.notifications) && db.nextId == nid
          else
            && status == Http.Ok
            && db.nextId == nid + 1
            && db.notifications == old(db.notifications)[nid := Notification(uid, p.owner.value, LikeKind, Some(postId), None)])
  {
    var user := db.UserByClerk(clerkId);
    if user.None? {
      return Http.NotFound;
    }
    if postId !in db.posts {
      return Http.NotFound;
    }
    var uid := user.value;
    var post := db.posts[postId];
    var wasLiked := ToggleLike(db, uid, postId);
    if !wasLiked {
      if post.owner.None? {
        return Http.ServerError;
      }
      LikeGuardIntendedSuppressesSelf(post.owner.value, uid);
      if LikeGuardIntended(post.owner.value, uid) {
        var nid := db.NewId();
        db.notifications := db.notifications[nid := Notification(uid, post.owner.value, LikeKind, Some(postId), None)];
      }
    }
    status := Http.Ok;
  }

  /** `Comment.deleteMany({ post: postId })`: the comment table without the
      comments of that post; every other comment is kept as it was. */
  function DeleteCommentsOf(comments: map<CommentId, Comment>, postId: PostId): (r: map<CommentId, Comment>)
    ensures forall c :: c in r <==> c in comments && comments[c].post != postId
    ensures forall c :: c in r ==> r[c] == comments[c]
  {
    map c | c in comments && comments[c].post != postId :: comments[c]
  }

  /** `deletePost`. 404 when the caller or the post is missing, 403 when the
      caller does not own it (500 when the owner is undefined: reading it
      throws). Otherwise the post's comments go first, then the post;
      other posts, users and notifications stay as they were. */
  method DeletePost(db: Db, clerkId: string, postId: PostId) returns (status: int)
    requires db.Valid()
    modifies db
    ensures db.Valid()
    ensures old(db.UserByClerk(clerkId)).None? || postId !in old(db.posts) ==>
      status == Http.NotFound && unchanged(db)
    ensures old(db.UserByClerk(clerkId)).Some? && postId in old(db.posts) ==>
      var uid := old(db.UserByClerk(clerkId)).value;
      var p := old(db.posts)[postId];
      if p.owner.None? then status == Http.ServerError && unchanged(db)
      else if p.owner.value != uid then status == Http.Forbidden && unchanged(db)
      else
        && status == Http.Ok
        && db.posts == old(db.posts) - {postId}
        && db.comments == DeleteCommentsOf(old(db.comments), postId)
        && db.users == old(db.users) && db.notifications == old(db.notifications)
        && db.nextId == old(db.nextId)
  {
    var user := db.UserByClerk(clerkId);
    if user.None? {
      return Http.NotFound;
    }
    if postId !in db.posts {
      return Http.NotFound;
    }
    var uid := user.value;
    var post := db.posts[postId];
    if post.owner.None? {
      return Http.ServerError;
    }
    if !Js.SameIdText(post.owner.value, uid) {
      return Http.Forbidden;
    }
    db.comments := DeleteCommentsOf(db.comments, postId);
    db.posts := db.posts - {postId};
    status := Http.Ok;
  }
}
