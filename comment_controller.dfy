/**
 * The comment handlers: listing a post's comments newest first, creating a
 * comment (attached to the end of the post's `comments` and notifying the
 * post's owner), and owner-only deletion that detaches it from the post.
 */
module CommentController {
  import opened DocStore
  import opened SeqOps
  import Js
  import Http

  /** `getComments`: exactly the comments of `postId`, newest first. */
  function GetComments(db: Db, postId: PostId): (r: seq<CommentId>)
    reads db
    ensures forall c :: c in r <==> c in db.comments && db.comments[c].post == postId
    ensures Decreasing(r)
  {
    SortedDesc(set c | c in db.comments && db.comments[c].post == postId)
  }

  /** `!content || content.trim() === ""`: no content, or only whitespace. */
  predicate ContentMissing(content: string)
    ensures ContentMissing(content) <==> Js.IsBlank(content)
  {
    Js.TrimEmptyIffBlank(content);
    content == "" || Js.Trim(content) == ""
  }

  /** `createComment`. 400 for missing or whitespace-only content, before any
      lookup; 404 when the caller or the post is missing; otherwise `CommentOn`. */
  method CreateComment(db: Db, clerkId: string, postId: PostId, content: string)
    returns (status: int, id: Option<CommentId>)
    requires db.Valid()
    modifies db
    ensures db.Valid()
    ensures db.users == old(db.users)
    ensures status == Http.Created <==> id.Some?
    ensures Js.IsBlank(content) ==> status == Http.BadRequest && unchanged(db)
    ensures !Js.IsBlank(content) && (old(db.UserByClerk(clerkId)).None? || postId !in old(db.posts)) ==>
      status == Http.NotFound && unchanged(db)
    ensures !Js.IsBlank(content) && old(db.UserByClerk(clerkId)).Some? && postId in old(db.posts) ==>
      var uid := old(db.UserByClerk(clerkId)).value;
      var p := old(db.posts)[postId];
      var cid := old(db.nextId);
      && db.comments == old(db.comments)[cid := Comment(uid, postId, content)]
      && db.posts == old(db.posts)[postId := p.(comments := p.comments + [cid])]
      && Notified(old(db.notifications), db.notifications, old(db.nextId), db.nextId, status, id, uid, postId, p.owner)
  {
    if ContentMissing(content) {
      return Http.BadRequest, None;
    }
    var user := db.UserByClerk(clerkId);
    if user.None? {
      return Http.NotFound, None;
    }
    if postId !in db.posts {
      return Http.NotFound, None;
    }
    assert user == old(db.UserByClerk(clerkId)) && db.posts == old(db.posts);
    status, id := CommentOn(db, user.value, postId, content);
  }

  /** The outcome of a stored comment for the notification table: 500 when the
      post's owner is undefined (reading it throws), no notification when the
      commenter owns the post, otherwise one "comment" notification to the
      owner, under the id after the comment's. */
  ghost predicate Notified(
    before: map<NotificationId, Notification>, after: map<NotificationId, Notification>,
    cid: CommentId, nextId: nat, status: int, id: Option<CommentId>,
    uid: UserId, postId: PostId, owner: Option<UserId>)
  {
    if owner.None? then
      status == Http.ServerError && id.None? && after == before && nextId == cid + 1
    else if owner.value == uid then
      status == Http.Created && id == Some(cid) && after == before && nextId == cid + 1
    else
      && status == Http.Created && id == Some(cid) && nextId == cid + 2
      && after == before[cid + 1 := Notification(uid, owner.value, CommentKind, Some(postId), Some(cid))]
  }

  /** The part of `createComment` after validation: store, attach, notify. */
  method CommentOn(db: Db, uid: UserId, postId: PostId, content: string)
    returns (status: int, id: Option<CommentId>)
    requires db.Valid() && postId in db.posts
    modifies db
    ensures db.Valid()
    ensures db.users == old(db.users)
    ensures db.comments == old(db.comments)[old(db.nextId) := Comment(uid, postId, content)]
    ensures db.posts == old(db.posts)[postId := old(db.posts)[postId].(comments := old(db.posts)[postId].comments + [old(db.nextId)])]
    ensures Notified(old(db.notifications), db.notifications, old(db.nextId), db.nextId, status, id, uid, postId, old(db.posts)[postId].owner)
  {
    var post := db.posts[postId];
    var cid := Attach(db, uid, postId, content);
    if post.owner.None? {
      return Http.ServerError, None;
    }
    if !Js.SameIdText(post.owner.value, uid) {
      db.Notify(Notification(uid, post.owner.value, CommentKind, Some(postId), Some(cid)));
    }
    status, id := Http.Created, Some(cid);
  }

  /** `Comment.create` followed by `$push` of its id onto the post's `comments`. */
  method Attach(db: Db, uid: UserId, postId: PostId, content: string) returns (cid: CommentId)
    requires db.Valid() && postId in db.posts
    modifies db
    ensures db.Valid()
    ensures cid == old(db.nextId) && db.nextId == cid + 1
    ensures db.comments == old(db.comments)[cid := Comment(uid, postId, content)]
    ensures db.posts == old(db.posts)[postId := old(db.posts)[postId].(comments := old(db.posts)[postId].comments + [cid])]
    ensures db.users == old(db.users) && db.notifications == old(db.notifications)
  {
    cid := db.NewId();
    db.comments := db.comments[cid := Comment(uid, postId, content)];
    var post := db.posts[postId];
    db.posts := db.posts[postId := post.(comments := post.comments + [cid])];
  }

  /** `deleteComment`. 404 when the caller or the comment is missing, 403
      when the caller does not own it. Otherwise the comment id is pulled from
      its post (if that post still exists) and the comment is deleted. */
  method DeleteComment(db: Db, clerkId: string, commentId: CommentId) returns (status: int)
    requires db.Valid()
    modifies db
    ensures db.Valid()
    ensures db.users == old(db.users) && db.notifications == old(db.notifications)
    ensures db.nextId == old(db.nextId)
    ensures old(db.UserByClerk(clerkId)).None? || commentId !in old(db.comments) ==>
      status == Http.NotFound && unchanged(db)
    ensures old(db.UserByClerk(clerkId)).Some? && commentId in old(db.comments) ==>
      var uid := old(db.UserByClerk(clerkId)).value;
      var c := old(db.comments)[commentId];
      if c.owner != uid then status == Http.Forbidden && unchanged(db)
      else
        && status == Http.Ok
        && db.comments == old(db.comments) - {commentId}
        && db.posts == if c.post in old(db.posts)
                       then old(db.posts)[c.post := old(db.posts)[c.post].(comments := Pull(old(db.posts)[c.post].comments, commentId))]
                       else old(db.posts)
  {
    var user := db.UserByClerk(clerkId);
    if user.None? {
      return Http.NotFound;
    }
    if commentId !in db.comments {
      return Http.NotFound;
    }
    var uid := user.value;
    var comment := db.comments[commentId];
    if !Js.SameIdText(comment.owner, uid) {
      return Http.Forbidden;
    }
    if comment.post in db.posts {
      var post := db.posts[comment.post];
      db.posts := db.posts[comment.post := post.(comments := Pull(post.comments, commentId))];
    }
    db.comments := db.comments - {commentId};
    status := Http.Ok;
  }
}
