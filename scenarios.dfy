/**
 * Request sequences run against a fresh store, showing what the handlers'
 * contracts add up to.
 */
module Scenarios {
  import opened DocStore
  import UserController
  import Http
  import Js
  import SeqOps

  /** Two freshly synced users, "user_a" (id 0) and "user_b" (id 1), with no edges. */
  method TwoUsers() returns (db: Db)
    ensures fresh(db) && db.Valid() && db.nextId == 2 && db.notifications == map[]
    ensures db.users.Keys == {0, 1}
    ensures db.users[0].following == [] && db.users[0].followers == []
    ensures db.users[1].following == [] && db.users[1].followers == []
    ensures db.UserByClerk("user_a") == Some(0)
  {
    db := new Db();
    var _, first, _ := UserController.SyncUser(db, "user_a", UserController.IdentityProfile(["a@example.com"], None, None, None));
    assert first == Some(0) && db.users.Keys == {0} && db.nextId == 1;
    assert db.users[0].clerkId == "user_a";
    var _, second, _ := UserController.SyncUser(db, "user_b", UserController.IdentityProfile(["b@example.com"], None, None, None));
    assert second == Some(1) && db.users[0].clerkId == "user_a";
  }

  /** A follows B: B's `followers` is [A], A's `following` is [B], and
      exactly one follow notification from A to B exists. */
  method FollowScenario() returns (db: Db)
    ensures fresh(db) && db.Valid() && db.users.Keys == {0, 1}
    ensures db.users[0].following == [1] && db.users[1].followers == [0]
    ensures db.notifications == map[2 := Notification(0, 1, FollowKind, None, None)]
    ensures db.UserByClerk("user_a") == Some(0)
  {
    db := TwoUsers();
    AFollowsB(db);
  }

  /** The follow request of `FollowScenario`, on the store `TwoUsers` built. */
  method AFollowsB(db: Db)
    requires db.Valid() && db.users.Keys == {0, 1} && db.nextId == 2 && db.notifications == map[]
    requires db.users[0].following == [] && db.users[1].followers == []
    requires db.UserByClerk("user_a") == Some(0)
    modifies db
    ensures db.Valid() && db.users.Keys == {0, 1}
    ensures db.users[0].following == [1] && db.users[1].followers == [0]
    ensures db.notifications == map[2 := Notification(0, 1, FollowKind, None, None)]
    ensures db.UserByClerk("user_a") == Some(0)
  {
    ghost var before := db.users;
    assert Js.IdText(1) == "1";
    assert !UserController.SelfFollowGuardAsWritten("user_a", 1);
    var followed := UserController.FollowUser(db, "user_a", 1);
    assert db.users == UserController.AddEdge(before, 0, 1);
    assert db.users[0] == before[0].(following := [1]);
    assert db.users[1] == before[1].(followers := [0]);
    assert db.users[0].clerkId == "user_a" && db.users[1].clerkId == before[1].clerkId;
  }

  /** A follows B, then follows again: the second call unfollows, both edge
      arrays are empty again, and no further notification is created. */
  method FollowThenUnfollow() returns (db: Db)
    ensures db.Valid() && db.users.Keys == {0, 1}
    ensures db.users[0].following == [] && db.users[1].followers == []
    ensures db.notifications == map[2 := Notification(0, 1, FollowKind, None, None)]
  {
    db := FollowScenario();
    assert Js.IdText(1) == "1";
    var unfollowed := UserController.FollowUser(db, "user_a", 1);
    assert db.users[0].following == SeqOps.Pull([1], 1);
    assert db.users[1].followers == SeqOps.Pull([0], 0);
  }

  /** As written, the self-follow guard lets a user follow itself: the one
      user ends up in its own `following` and `followers`, and is sent a
      follow notification from itself. */
  method SelfFollowAsWritten() returns (db: Db, a: UserId)
    ensures db.Valid() && a in db.users
    ensures a in db.users[a].following && a in db.users[a].followers
    ensures 1 in db.notifications && db.notifications[1].sender == db.notifications[1].recipient == a
  {
    db := new Db();
    var _, ua, _ := UserController.SyncUser(db, "user_2a", UserController.IdentityProfile(["a@example.com"], None, None, None));
    a := ua.value;
    assert a == 0 && db.nextId == 1 && db.users[a].following == [];
    assert db.UserByClerk("user_2a") == Some(a);
    assert Js.IdText(0) == "0";
    var status := UserController.FollowUser(db, "user_2a", a);
  }

  /** Two sequential syncs of one subject id create at most one user, and
      leave exactly one user with that subject id. */
  method SyncTwice(db: Db, clerkId: string, first: UserController.IdentityProfile, second: UserController.IdentityProfile)
    requires db.Valid()
    modifies db
    ensures db.Valid()
    ensures |db.users| <= |old(db.users)| + 1
    ensures db.UserByClerk(clerkId).Some? || (first.emails == [] && second.emails == [])
  {
    var _, _, _ := UserController.SyncUser(db, clerkId, first);
    var _, _, _ := UserController.SyncUser(db, clerkId, second);
  }
}
