/**
 * The user handlers: identity sync (create on first sight), profile lookup
 * and update, and the follow/unfollow toggle that maintains the two
 * denormalised edge arrays and emits the follow notification.
 */
module UserController {
  import opened DocStore
  import opened SeqOps
  import Js
  import Http

  /** What the identity provider knows about a subject. */
  datatype IdentityProfile = IdentityProfile(
    emails: seq<string>,
    firstName: Option<string>,
    lastName: Option<string>,
    imageUrl: Option<string>)

  /** The profile fields a request body may supply; `None` is a field left out. */
  datatype ProfilePatch = ProfilePatch(
    email: Option<string>,
    firstName: Option<string>,
    lastName: Option<string>,
    username: Option<string>,
    profilePicture: Option<string>)

  /** `value || ""`. */
  function OrEmpty(value: Option<string>): string
  {
    if value.Some? then value.value else ""
  }

  /** The record `syncUser` creates: the first email address, its local part
      as the username, missing names and picture as "", no edges. */
  function NewUser(clerkId: string, profile: IdentityProfile): (u: User)
    requires profile.emails != []
    ensures u.clerkId == clerkId && u.email == profile.emails[0]
    ensures |u.username| <= |u.email| && u.email[..|u.username|] == u.username
    ensures '@' !in u.username
    ensures |u.username| < |u.email| ==> u.email[|u.username|] == '@'
    ensures profile.firstName.Some? ==> u.firstName == profile.firstName.value
    ensures profile.firstName.None? ==> u.firstName == ""
    ensures profile.lastName.Some? ==> u.lastName == profile.lastName.value
    ensures profile.lastName.None? ==> u.lastName == ""
    ensures profile.imageUrl.Some? ==> u.profilePicture == profile.imageUrl.value
    ensures profile.imageUrl.None? ==> u.profilePicture == ""
    ensures u.followers == [] && u.following == []
  {
    var email := profile.emails[0];
    User(clerkId, email, OrEmpty(profile.firstName), OrEmpty(profile.lastName),
         Js.FirstField(email, '@'), OrEmpty(profile.imageUrl), [], [])
  }

  /** `getUserProfile`: 404 when no user has the username. */
  method GetUserProfile(db: Db, username: string) returns (status: int, user: Option<UserId>)
    ensures status == Http.Ok || status == Http.NotFound
    ensures status == Http.Ok <==> user.Some?
    ensures user.None? <==> forall u :: u in db.users ==> db.users[u].username != username
    ensures user.Some? ==> user.value in db.users && db.users[user.value].username == username
  {
    if u :| u in db.users && db.users[u].username == username {
      status, user := Http.Ok, Some(u);
    } else {
      status, user := Http.NotFound, None;
    }
  }

  /** `getCurrentUser`: the caller's own record, 404 when it was never synced. */
  method GetCurrentUser(db: Db, clerkId: string) returns (status: int, user: Option<UserId>)
    ensures status == Http.Ok || status == Http.NotFound
    ensures status == Http.Ok <==> user.Some?
    ensures user.None? <==> forall u :: u in db.users ==> db.users[u].clerkId != clerkId
    ensures user.Some? ==> user.value in db.users && db.users[user.value].clerkId == clerkId
  {
    if u :| u in db.users && db.users[u].clerkId == clerkId {
      status, user := Http.Ok, Some(u);
    } else {
      status, user := Http.NotFound, None;
    }
  }

  /** A supplied field wins over the stored one. */
  function Supplied(field: Option<string>, stored: string): string
  {
    if field.Some? then field.value else stored
  }

  /** The user after a partial update. The identity key and the edge arrays
      are not profile fields and keep their values; an empty patch changes nothing. */
  function ApplyPatch(u: User, patch: ProfilePatch): (r: User)
    ensures r.clerkId == u.clerkId && r.followers == u.followers && r.following == u.following
    ensures patch == ProfilePatch(None, None, None, None, None) ==> r == u
    ensures patch.email.Some? ==> r.email == patch.email.value
    ensures patch.email.None? ==> r.email == u.email
    ensures patch.firstName.Some? ==> r.firstName == patch.firstName.value
    ensures patch.firstName.None? ==> r.firstName == u.firstName
    ensures patch.lastName.Some? ==> r.lastName == patch.lastName.value
    ensures patch.lastName.None? ==> r.lastName == u.lastName
    ensures patch.username.Some? ==> r.username == patch.username.value
    ensures patch.username.None? ==> r.username == u.username
    ensures patch.profilePicture.Some? ==> r.profilePicture == patch.profilePicture.value
    ensures patch.profilePicture.None? ==> r.profilePicture == u.profilePicture
  {
    u.(email := Supplied(patch.email, u.email),
       firstName := Supplied(patch.firstName, u.firstName),
       lastName := Supplied(patch.lastName, u.lastName),
       username := Supplied(patch.username, u.username),
       profilePicture := Supplied(patch.profilePicture, u.profilePicture))
  }

  /** `updateProfile`: 404 when the caller has no record; otherwise only that
      record changes, and only in the fields supplied. */
  method UpdateProfile(db: Db, clerkId: string, patch: ProfilePatch) returns (status: int, user: Option<UserId>)
    requires db.Valid()
    modifies db
    ensures db.Valid()
    ensures old(db.UserByClerk(clerkId)).None? ==> status == Http.NotFound && user.None? && unchanged(db)
    ensures old(db.UserByClerk(clerkId)).Some? ==>
      var u := old(db.UserByClerk(clerkId)).value;
      && status == Http.Ok && user == Some(u)
      && db.users == old(db.users)[u := ApplyPatch(old(db.users)[u], patch)]
      && db.posts == old(db.posts) && db.comments == old(db.comments)
      && db.notifications == old(db.notifications) && db.nextId == old(db.nextId)
  {
    var found := db.UserByClerk(clerkId);
    if found.None? {
      return Http.NotFound, None;
    }
    var u := found.value;
    db.users := db.users[u := ApplyPatch(db.users[u], patch)];
    status, user := Http.Ok, found;
  }

  /** `syncUser`: an existing record is returned untouched; otherwise one is
      created from the identity provider's profile (500 when it has no email
      address, since reading `emailAddresses[0]` throws). Afterwards the
      caller's subject id finds the returned user, so a repeated call is a no-op. */
  method SyncUser(db: Db, clerkId: string, profile: IdentityProfile)
    returns (status: int, user: Option<UserId>, created: bool)
    requires db.Valid()
    modifies db
    ensures db.Valid()
    ensures db.posts == old(db.posts) && db.comments == old(db.comments)
    ensures db.notifications == old(db.notifications)
    ensures old(db.UserByClerk(clerkId)).Some? ==>
      status == Http.Ok && user == old(db.UserByClerk(clerkId)) && !created && unchanged(db)
    ensures old(db.UserByClerk(clerkId)).None? && profile.emails == [] ==>
      status == Http.ServerError && user.None? && !created && unchanged(db)
    ensures old(db.UserByClerk(clerkId)).None? && profile.emails != [] ==>
      && status == Http.Ok && created && user == Some(old(db.nextId))
      && db.nextId == old(db.nextId) + 1
      && db.users == old(db.users)[old(db.nextId) := NewUser(clerkId, profile)]
    ensures status == Http.Ok ==> db.UserByClerk(clerkId) == user
  {
    var existing := db.UserByClerk(clerkId);
    if existing.Some? {
      return Http.Ok, existing, false;
    }
    if profile.emails == [] {
      return Http.ServerError, None, false;
    }
    var id := db.NewId();
    db.users := db.users[id := NewUser(clerkId, profile)];
    assert db.users[id].clerkId == clerkId;
    var found := db.UserByClerk(clerkId);
    assert found.Some? && db.users[found.value].clerkId == db.users[id].clerkId;
    status, user, created := Http.Ok, Some(id), true;
  }

  /** Every edge is recorded on both sides: `b` is in `a`'s `following`
      exactly when `a` is in `b`'s `followers`. */
  ghost predicate Symmetric(users: map<UserId, User>)
  {
    forall a, b :: a in users && b in users ==> (b in users[a].following <==> a in users[b].followers)
  }

  /** No user follows itself. */
  ghost predicate NoSelfEdges(users: map<UserId, User>)
  {
    forall u :: u in users ==> u !in users[u].following && u !in users[u].followers
  }

  /** The follow transition: push `target` onto `cur`'s `following`, then
      push `cur` onto `target`'s `followers`. When both are the same user,
      the second push applies to the record the first one updated. */
  function AddEdge(users: map<UserId, User>, cur: UserId, target: UserId): (r: map<UserId, User>)
    requires cur in users && target in users
    ensures r.Keys == users.Keys
    ensures target in r[cur].following && cur in r[target].followers
    ensures cur != target ==>
      && r[cur] == users[cur].(following := users[cur].following + [target])
      && r[target] == users[target].(followers := users[target].followers + [cur])
    ensures cur == target ==>
      r[cur] == users[cur].(following := users[cur].following + [cur], followers := users[cur].followers + [cur])
    ensures forall u :: u in users ==> r[u].clerkId == users[u].clerkId
    ensures forall u :: u in users && u != cur && u != target ==> r[u] == users[u]
  {
    var u := users[cur];
    if cur == target then
      users[cur := u.(following := u.following + [cur], followers := u.followers + [cur])]
    else
      var t := users[target];
      users[cur := u.(following := u.following + [target])][target := t.(followers := t.followers + [cur])]
  }

  /** The unfollow transition: pull `target` from `cur`'s `following`, then
      pull `cur` from `target`'s `followers`, on one record when both are the
      same user. */
  function RemoveEdge(users: map<UserId, User>, cur: UserId, target: UserId): (r: map<UserId, User>)
    requires cur in users && target in users
    ensures r.Keys == users.Keys
    ensures target !in r[cur].following && cur !in r[target].followers
    ensures cur != target ==>
      && r[cur] == users[cur].(following := Pull(users[cur].following, target))
      && r[target] == users[target].(followers := Pull(users[target].followers, cur))
    ensures cur == target ==>
      r[cur] == users[cur].(following := Pull(users[cur].following, cur), followers := Pull(users[cur].followers, cur))
    ensures forall u :: u in users ==> r[u].clerkId == users[u].clerkId
    ensures forall u :: u in users && u != cur && u != target ==> r[u] == users[u]
  {
    var u := users[cur];
    if cur == target then
      users[cur := u.(following := Pull(u.following, cur), followers := Pull(u.followers, cur))]
    else
      var t := users[target];
      users[cur := u.(following := Pull(u.following, target))][target := t.(followers := Pull(t.followers, cur))]
  }

  /** Following keeps the two sides of every edge in agreement. */
  lemma AddEdgeKeepsSymmetric(users: map<UserId, User>, cur: UserId, target: UserId)
    requires cur in users && target in users && Symmetric(users)
    ensures Symmetric(AddEdge(users, cur, target))
  {
    var r := AddEdge(users, cur, target);
    forall a | a in users
      ensures r[a].following == if a == cur then users[a].following + [target] else users[a].following
      ensures r[a].followers == if a == target then users[a].followers + [cur] else users[a].followers
    {
    }
    forall a, b | a in r && b in r
      ensures b in r[a].following <==> a in r[b].followers
    {
      assert b in r[a].following <==> b in users[a].following || (a == cur && b == target);
      assert a in r[b].followers <==> a in users[b].followers || (a == cur && b == target);
    }
  }

  /** Unfollowing keeps the two sides of every edge in agreement. */
  lemma RemoveEdgeKeepsSymmetric(users: map<UserId, User>, cur: UserId, target: UserId)
    requires cur in users && target in users && Symmetric(users)
    ensures Symmetric(RemoveEdge(users, cur, target))
  {
    var r := RemoveEdge(users, cur, target);
    forall a | a in users
      ensures r[a].following == if a == cur then Pull(users[a].following, target) else users[a].following
      ensures r[a].followers == if a == target then Pull(users[a].followers, cur) else users[a].followers
    {
    }
    forall a, b | a in r && b in r
      ensures b in r[a].following <==> a in r[b].followers
    {
      assert b in r[a].following <==> b in users[a].following && !(a == cur && b == target);
      assert a in r[b].followers <==> a in users[b].followers && !(a == cur && b == target);
    }
  }

  /** Following then unfollowing restores both users exactly, when the edge
      was absent on both sides. */
  lemma RemoveAfterAdd(users: map<UserId, User>, cur: UserId, target: UserId)
    requires cur in users && target in users
    requires target !in users[cur].following && cur !in users[target].followers
    ensures RemoveEdge(AddEdge(users, cur, target), cur, target) == users
  {
    var added := AddEdge(users, cur, target);
    var r := RemoveEdge(added, cur, target);
    PullAppended(users[cur].following, target);
    PullAbsent(users[cur].following, target);
    PullAppended(users[target].followers, cur);
    PullAbsent(users[target].followers, cur);
    forall u | u in users
      ensures r[u] == users[u]
    {
      if u != cur && u != target {
        assert added[u] == users[u];
      }
    }
    assert r.Keys == users.Keys;
  }

  /** Following someone else never creates a self-edge. */
  lemma AddEdgeKeepsNoSelfEdges(users: map<UserId, User>, cur: UserId, target: UserId)
    requires cur in users && target in users && cur != target && NoSelfEdges(users)
    ensures NoSelfEdges(AddEdge(users, cur, target))
  {
    var r := AddEdge(users, cur, target);
    assert r[cur].following == users[cur].following + [target];
    assert r[target].followers == users[target].followers + [cur];
  }

  /** Unfollowing never creates a self-edge. */
  lemma RemoveEdgeKeepsNoSelfEdges(users: map<UserId, User>, cur: UserId, target: UserId)
    requires cur in users && target in users && NoSelfEdges(users)
    ensures NoSelfEdges(RemoveEdge(users, cur, target))
  {
    var r := RemoveEdge(users, cur, target);
    forall u | u in r ensures u !in r[u].following && u !in r[u].followers {
      if u == cur || u == target {
        assert r[u].following == users[u].following || r[u].following == Pull(users[u].following, target);
        assert r[u].followers == users[u].followers || r[u].followers == Pull(users[u].followers, cur);
      }
    }
  }

  /** The toggle shared by both follow handlers: unfollow when `cur`
      already follows `target`, otherwise follow and notify `target`. */
  method ToggleFollow(db: Db, cur: UserId, target: UserId) returns (wasFollowing: bool)
    requires db.Valid() && cur in db.users && target in db.users
    modifies db
    ensures db.Valid()
    ensures db.posts == old(db.posts) && db.comments == old(db.comments)
    ensures wasFollowing <==> target in old(db.users)[cur].following
    ensures wasFollowing ==>
      && db.users == RemoveEdge(old(db.users), cur, target)
      && db.notifications == old(db.notifications) && db.nextId == old(db.nextId)
    ensures !wasFollowing ==>
      && db.users == AddEdge(old(db.users), cur, target)
      && db.nextId == old(db.nextId) + 1
      && db.notifications == old(db.notifications)[old(db.nextId) := Notification(cur, target, FollowKind, None, None)]
  {
    wasFollowing := target in db.users[cur].following;
    if wasFollowing {
      Unfollow(db, cur, target);
    } else {
      Follow(db, cur, target);
    }
  }

  /** The unfollow branch: both `$pull` updates. */
  method Unfollow(db: Db, cur: UserId, target: UserId)
    requires db.Valid() && cur in db.users && target in db.users
    modifies db`users
    ensures db.Valid()
    ensures db.users == RemoveEdge(old(db.users), cur, target)
  {
    db.users := RemoveEdge(db.users, cur, target);
  }

  /** The follow branch: both `$push` updates, then the follow notification. */
  method Follow(db: Db, cur: UserId, target: UserId)
    requires db.Valid() && cur in db.users && target in db.users
    modifies db
    ensures db.Valid()
    ensures db.posts == old(db.posts) && db.comments == old(db.comments)
    ensures db.users == AddEdge(old(db.users), cur, target)
    ensures db.nextId == old(db.nextId) + 1
    ensures db.notifications == old(db.notifications)[old(db.nextId) := Notification(cur, target, FollowKind, None, None)]
  {
    db.users := AddEdge(db.users, cur, target);
    db.Notify(Notification(cur, target, FollowKind, None, None));
  }

  /** The self-follow guard of `followUser` as written: the caller's subject
      id is compared with the target's local id text. */
  predicate SelfFollowGuardAsWritten(clerkId: string, target: UserId)
  {
    clerkId == Js.IdText(target)
  }

  /** The guard misses every real self-follow: a subject id holding any
      character other than a decimal digit (such as "user_2a", whose local id
      may be 7) never equals the text of a local id, so no target is refused. */
  lemma SelfFollowSlipsThrough(clerkId: string, target: UserId, i: nat)
    requires i < |clerkId| && !('0' <= clerkId[i] <= '9')
    ensures !SelfFollowGuardAsWritten(clerkId, target)
  {
  }

  /** `followUser` as written. 400 when the subject id equals the target id
      text, 404 when the caller or the target is missing, otherwise the toggle. */
  method FollowUser(db: Db, clerkId: string, target: UserId) returns (status: int)
    requires db.Valid()
    modifies db
    ensures db.Valid()
    ensures db.posts == old(db.posts) && db.comments == old(db.comments)
    ensures Symmetric(old(db.users)) ==> Symmetric(db.users)
    ensures SelfFollowGuardAsWritten(clerkId, target) ==> status == Http.BadRequest && unchanged(db)
    ensures !SelfFollowGuardAsWritten(clerkId, target)
            && (old(db.UserByClerk(clerkId)).None? || target !in old(db.users)) ==>
      status == Http.NotFound && unchanged(db)
    ensures !SelfFollowGuardAsWritten(clerkId, target)
            && old(db.UserByClerk(clerkId)).Some? && target in old(db.users) ==>
      var cur := old(db.UserByClerk(clerkId)).value;
      var nid := old(db.nextId);
      && status == Http.Ok
      && if target in old(db.users)[cur].following then
           && db.users == RemoveEdge(old(db.users), cur, target)
           && db.notifications == old(db.notifications) && db.nextId == nid
         else
           && db.users == AddEdge(old(db.users), cur, target)
           && db.nextId == nid + 1
           && db.notifications == old(db.notifications)[nid := Notification(cur, target, FollowKind, None, None)]
  {
    if SelfFollowGuardAsWritten(clerkId, target) {
      return Http.BadRequest;
    }
    var current := db.UserByClerk(clerkId);
    if current.None? || target !in db.users {
      return Http.NotFound;
    }
    var cur := current.value;
    if Symmetric(db.users) {
      AddEdgeKeepsSymmetric(db.users, cur, target);
      RemoveEdgeKeepsSymmetric(db.users, cur, target);
    }
    var _ := ToggleFollow(db, cur, target);
    status := Http.Ok;
  }

  /** `followUser` with the self-check evidently intended: it compares the
      caller's local id with the target after the lookups, so no user ever
      ends up following itself. */
  method FollowUserIntended(db: Db, clerkId: string, target: UserId) returns (status: int)
    requires db.Valid()
    modifies db
    ensures db.Valid()
    ensures db.posts == old(db.posts) && db.comments == old(db.comments)
    ensures NoSelfEdges(old(db.users)) ==> NoSelfEdges(db.users)
    ensures Symmetric(old(db.users)) ==> Symmetric(db.users)
    ensures old(db.UserByClerk(clerkId)).None? || target !in old(db.users) ==>
      status == Http.NotFound && unchanged(db)
    ensures old(db.UserByClerk(clerkId)) == Some(target) && target in old(db.users) ==>
      status == Http.BadRequest && unchanged(db)
    ensures old(db.UserByClerk(clerkId)).Some? && old(db.UserByClerk(clerkId)) != Some(target)
            && target in old(db.users) ==>
      var cur := old(db.UserByClerk(clerkId)).value;
      var nid := old(db.nextId);
      && status == Http.Ok
      && if target in old(db.users)[cur].following then
           && db.users == RemoveEdge(old(db.users), cur, target)
           && db.notifications == old(db.notifications) && db.nextId == nid
         else
           && db.users == AddEdge(old(db.users), cur, target)
           && db.nextId == nid + 1
           && db.notifications == old(db.notifications)[nid := Notification(cur, target, FollowKind, None, None)]
  {
    var current := db.UserByClerk(clerkId);
    if current.None? || target !in db.users {
      return Http.NotFound;
    }
    var cur := current.value;
    if cur == target {
      return Http.BadRequest;
    }
    if Symmetric(db.users) {
      AddEdgeKeepsSymmetric(db.users, cur, target);
      RemoveEdgeKeepsSymmetric(db.users, cur, target);
    }
    if NoSelfEdges(db.users) {
      AddEdgeKeepsNoSelfEdges(db.users, cur, target);
      RemoveEdgeKeepsNoSelfEdges(db.users, cur, target);
    }
    var _ := ToggleFollow(db, cur, target);
    status := Http.Ok;
  }
}
