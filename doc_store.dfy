/**
 * The document store the controllers work on: four collections keyed by
 * document id (User, Post, Comment, Notification). Every record refers to
 * others by id; `likes`, `comments`, `followers` and `following` are the
 * denormalised reference arrays. One counter hands out ids to all four
 * collections, so a larger id is a later creation time.
 */
module DocStore {

  type UserId = nat
  type PostId = nat
  type CommentId = nat
  type NotificationId = nat

  datatype Option<T> = None | Some(value: T)

  /** A local user; `clerkId` is the identity provider's subject id. */
  datatype User = User(
    clerkId: string,
    email: string,
    firstName: string,
    lastName: string,
    username: string,
    profilePicture: string,
    followers: seq<UserId>,
    following: seq<UserId>)

  /** A post; `owner` is `None` when the record was stored with an undefined `user`. */
  datatype Post = Post(
    owner: Option<UserId>,
    content: string,
    image: string,
    likes: seq<UserId>,
    comments: seq<CommentId>)

  datatype Comment = Comment(owner: UserId, post: PostId, content: string)

  datatype NotificationKind = FollowKind | LikeKind | CommentKind

  datatype Notification = Notification(
    sender: UserId,
    recipient: UserId,
    kind: NotificationKind,
    post: Option<PostId>,
    comment: Option<CommentId>)

  /** The document database: one map per collection. */
  class Db {
    var users: map<UserId, User>
    var posts: map<PostId, Post>
    var comments: map<CommentId, Comment>
    var notifications: map<NotificationId, Notification>
    var nextId: nat

    /** Every stored id was handed out by the counter, and the identity
        provider's subject id is a unique key of the user collection. */
    ghost predicate Valid()
      reads this
    {
      && (forall u :: u in users ==> u < nextId)
      && (forall p :: p in posts ==> p < nextId)
      && (forall c :: c in comments ==> c < nextId)
      && (forall n :: n in notifications ==> n < nextId)
      && (forall u, v :: u in users && v in users && users[u].clerkId == users[v].clerkId ==> u == v)
    }

    constructor ()
      ensures Valid()
      ensures users == map[] && posts == map[] && comments == map[] && notifications == map[]
      ensures nextId == 0
    {
      users, posts, comments, notifications := map[], map[], map[], map[];
      nextId := 0;
    }

    /** `User.findOne({ clerkId })`: the user whose subject id is `clerkId`, if any. */
    function UserByClerk(clerkId: string): (r: Option<UserId>)
      reads this
      requires Valid()
      ensures r.Some? ==> r.value in users && users[r.value].clerkId == clerkId
      ensures r.None? ==> forall u :: u in users ==> users[u].clerkId != clerkId
    {
      if exists u :: u in users && users[u].clerkId == clerkId then
        var u :| u in users && users[u].clerkId == clerkId;
        Some(u)
      else None
    }

    /** The id the store assigns to the next document it creates. */
    method NewId() returns (id: nat)
      requires Valid()
      modifies this`nextId
      ensures Valid()
      ensures id == old(nextId) && nextId == id + 1
      ensures id !in users && id !in posts && id !in comments && id !in notifications
    {
      id := nextId;
      nextId := nextId + 1;
    }

    /** `Notification.create(n)`: the notification is stored under a fresh id. */
    method Notify(n: Notification)
      requires Valid()
      modifies this
      ensures Valid()
      ensures users == old(users) && posts == old(posts) && comments == old(comments)
      ensures nextId == old(nextId) + 1
      ensures notifications == old(notifications)[old(nextId) := n]
    {
      var id := NewId();
      notifications := notifications[id := n];
    }
  }
}
