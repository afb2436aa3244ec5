/** The user directory provider: a list of users that can be extended,
    shrunk under the last-admin guard, and searched by id
    (src/contexts/UsersContext.tsx). */
module UsersContext {
  import opened Js
  import opened Types

  function HasId(id: string): User -> bool
  {
    (u: User) => u.id == id
  }

  function LacksId(id: string): User -> bool
  {
    (u: User) => u.id != id
  }

  function IsAdmin(u: User): bool
  {
    u.role == Admin
  }

  /** `users.filter(u => u.role === 'admin').length` */
  function AdminCount(users: seq<User>): (r: nat)
    ensures r <= |users|
    ensures r == 0 <==> forall u :: u in users ==> u.role != Admin
  {
    FilterMembers(users, IsAdmin);
    assert Filter(users, IsAdmin) != [] ==> IsAdmin(Filter(users, IsAdmin)[0]);
    Count(users, IsAdmin)
  }

  predicate UniqueIds(users: seq<User>)
  {
    forall i, j :: 0 <= i < j < |users| ==> users[i].id != users[j].id
  }

  /** The four seeded users, used when nothing is stored; `avatarFor` stands
      for getAvatarUrl. */
  function InitialUsers(avatarFor: string -> string): (r: seq<User>)
    ensures |r| == 4
    ensures forall i :: 0 <= i < |r| ==> r[i].avatarUrl == Some(avatarFor(r[i].name))
  {
    [ User("1", "Naved", "naved@example.com", Admin, None, None, Some(avatarFor("Naved"))),
      User("2", "Hemant", "hemant@example.com", Manager, None, None, Some(avatarFor("Hemant"))),
      User("3", "Shubham", "shubham@example.com", Manager, None, None, Some(avatarFor("Shubham"))),
      User("4", "Demo User", "demo@example.com", PlainUser, Some("2"), None, Some(avatarFor("Demo User"))) ]
  }

  /** The seeded directory has distinct ids and exactly one admin. */
  lemma InitialUsersWellFormed(avatarFor: string -> string)
    ensures UniqueIds(InitialUsers(avatarFor))
    ensures AdminCount(InitialUsers(avatarFor)) == 1
  {
    var us := InitialUsers(avatarFor);
    assert us == [us[0]] + us[1..];
    assert us[1..] == [us[1]] + us[2..];
    assert us[2..] == [us[2]] + us[3..];
    FilterNone(us[1..], IsAdmin);
  }

  /** `{ ...user, avatarUrl: user.avatarUrl || getAvatarUrl(user.name) }`:
      a missing or empty URL is replaced by the generated one; nothing else
      changes. */
  function WithAvatar(user: User, avatarFor: string -> string): (r: User)
    ensures r.(avatarUrl := user.avatarUrl) == user
    ensures user.avatarUrl.Some? && user.avatarUrl.value != "" ==> r == user
    ensures user.avatarUrl.None? || user.avatarUrl.value == "" ==> r.avatarUrl == Some(avatarFor(user.name))
  {
    if user.avatarUrl.Some? && user.avatarUrl.value != "" then user
    else user.(avatarUrl := Some(avatarFor(user.name)))
  }

  /** The list deleteUser leaves: unchanged when the first user with that id
      is an admin and there is at most one admin, otherwise every user with
      that id removed. */
  function DeleteFrom(users: seq<User>, userId: string): (r: seq<User>)
    ensures |r| <= |users|
    ensures forall u :: u in r ==> u in users
  {
    var userToDelete := Find(users, HasId(userId));
    if userToDelete.Some? && userToDelete.value.role == Admin && AdminCount(users) <= 1 then users
    else
      FilterMembers(users, LacksId(userId));
      Filter(users, LacksId(userId))
  }

  /** The first user with the id is an admin and is the only admin: the
      deletion is refused and the list is unchanged. */
  lemma DeleteRefusesLastAdmin(users: seq<User>, userId: string, i: nat)
    requires i < |users| && users[i].id == userId && users[i].role == Admin
    requires forall j :: 0 <= j < i ==> users[j].id != userId
    requires AdminCount(users) <= 1
    ensures DeleteFrom(users, userId) == users
  {
    var found := Find(users, HasId(userId));
    assert found.Some?;
    var k :| 0 <= k < |users| && users[k] == found.value && HasId(userId)(users[k]) &&
      forall j :: 0 <= j < k ==> !HasId(userId)(users[j]);
    assert HasId(userId)(users[i]);
  }

  /** Outside that case the deletion removes exactly the users with the id
      and keeps all others, in order. */
  lemma DeleteRemovesExactly(users: seq<User>, userId: string)
    requires !(Find(users, HasId(userId)).Some? && Find(users, HasId(userId)).value.role == Admin && AdminCount(users) <= 1)
    ensures DeleteFrom(users, userId) == Filter(users, LacksId(userId))
    ensures forall u :: u in DeleteFrom(users, userId) <==> u in users && u.id != userId
    ensures |DeleteFrom(users, userId)| == |users| - Count(users, HasId(userId))
  {
    FilterMembers(users, LacksId(userId));
    RemovedCount(users, userId);
  }

  lemma {:induction false} RemovedCount(users: seq<User>, userId: string)
    ensures Count(users, LacksId(userId)) + Count(users, HasId(userId)) == |users|
  {
    if users != [] {
      RemovedCount(users[1..], userId);
    }
  }

  /** Deleting an id nobody has leaves the list unchanged. */
  lemma DeleteUnknownId(users: seq<User>, userId: string)
    requires forall u :: u in users ==> u.id != userId
    ensures DeleteFrom(users, userId) == users
  {
    FilterAll(users, LacksId(userId));
  }

  /** When the first user with the id is not an admin the deletion goes
      through: nobody with that id is left. */
  lemma DeleteNonAdmin(users: seq<User>, userId: string)
    requires Find(users, HasId(userId)).Some? && Find(users, HasId(userId)).value.role != Admin
    ensures forall u :: u in DeleteFrom(users, userId) ==> u.id != userId
    ensures |DeleteFrom(users, userId)| < |users|
  {
    DeleteRemovesExactly(users, userId);
    var k :| 0 <= k < |users| && users[k] == Find(users, HasId(userId)).value && HasId(userId)(users[k]);
    FilterMembers(users, HasId(userId));
    assert users[k] in Filter(users, HasId(userId));
  }

  /** With distinct ids, removing the user at index i is removing that one entry. */
  lemma RemoveUnique(users: seq<User>, i: nat)
    requires UniqueIds(users) && i < |users|
    ensures Filter(users, LacksId(users[i].id)) == users[..i] + users[i + 1..]
  {
    forall j | 0 <= j < |users| && j != i ensures LacksId(users[i].id)(users[j]) {
      if j < i {
        assert users[j].id != users[i].id;
      } else {
        assert users[i].id != users[j].id;
      }
    }
    FilterRemoveAt(users, i, LacksId(users[i].id));
  }

  /** Removing one entry keeps ids distinct. */
  lemma RemoveAtKeepsUnique(users: seq<User>, i: nat)
    requires UniqueIds(users) && i < |users|
    ensures UniqueIds(users[..i] + users[i + 1..])
  {
    var r := users[..i] + users[i + 1..];
    assert |r| == |users| - 1;
    forall a | 0 <= a < |r| ensures r[a] == users[if a < i then a else a + 1] {
      if a < i {
        assert r[a] == users[..i][a];
      } else {
        assert r[a] == users[i + 1..][a - i];
      }
    }
  }

  /** With distinct ids a deletion never removes the last admin: if there is
      an admin before, there is one after. */
  lemma DeleteKeepsAnAdmin(users: seq<User>, userId: string)
    requires UniqueIds(users)
    requires AdminCount(users) >= 1
    ensures AdminCount(DeleteFrom(users, userId)) >= 1
  {
    var found := Find(users, HasId(userId));
    if found.None? {
      DeleteUnknownId(users, userId);
    } else if found.value.role == Admin && AdminCount(users) <= 1 {
    } else {
      var i :| 0 <= i < |users| && users[i] == found.value && HasId(userId)(users[i]);
      RemoveUnique(users, i);
      assert users == users[..i] + [users[i]] + users[i + 1..];
      FilterConcat(users[..i] + [users[i]], users[i + 1..], IsAdmin);
      FilterConcat(users[..i], [users[i]], IsAdmin);
      FilterConcat(users[..i], users[i + 1..], IsAdmin);
    }
  }

  /** Deletion keeps ids distinct. */
  lemma DeleteKeepsIdsUnique(users: seq<User>, userId: string)
    requires UniqueIds(users)
    ensures UniqueIds(DeleteFrom(users, userId))
  {
    var found := Find(users, HasId(userId));
    if found.Some? && !(found.value.role == Admin && AdminCount(users) <= 1) {
      var i :| 0 <= i < |users| && users[i] == found.value && HasId(userId)(users[i]);
      RemoveUnique(users, i);
      RemoveAtKeepsUnique(users, i);
    } else if found.None? {
      DeleteUnknownId(users, userId);
    }
  }

  /** Without distinct ids the guard can be bypassed: a non-admin listed
      first under the admin's id takes the only admin down with it. */
  lemma DuplicateIdRemovesLastAdmin(avatar: Option<string>)
    ensures var users := [User("1", "A", "a@x", PlainUser, None, None, avatar),
                          User("1", "B", "b@x", Admin, None, None, avatar)];
      AdminCount(users) == 1 && DeleteFrom(users, "1") == [] && AdminCount(DeleteFrom(users, "1")) == 0
  {
    var users := [User("1", "A", "a@x", PlainUser, None, None, avatar),
                  User("1", "B", "b@x", Admin, None, None, avatar)];
    assert users[1..] == [users[1]];
    assert users[1..][1..] == [];
    assert Find(users, HasId("1")) == Some(users[0]);
    assert Filter(users, LacksId("1")) == [];
    assert Filter(users[1..], IsAdmin) == [users[1]];
    assert Filter(users, IsAdmin) == [users[1]];
  }

  /** The `users` state of the provider. */
  class UserDirectory {
    var users: seq<User>
    /** getAvatarUrl: the URL generated from a user's name. */
    const avatarFor: string -> string

    /** The stored list when one is stored (even an empty one), otherwise the
        seeded users. */
    constructor (stored: Option<seq<User>>, avatarFor: string -> string)
      ensures this.avatarFor == avatarFor
      ensures users == if stored.Some? then stored.value else InitialUsers(avatarFor)
    {
      this.avatarFor := avatarFor;
      users := if stored.Some? then stored.value else InitialUsers(avatarFor);
    }

    /** addUser: append the user, with an avatar URL when it had none. */
    method AddUser(user: User)
      modifies this
      ensures users == old(users) + [WithAvatar(user, avatarFor)]
    {
      var userWithAvatar := WithAvatar(user, avatarFor);
      users := users + [userWithAvatar];
    }

    /** deleteUser, with the last-admin guard. */
    method DeleteUser(userId: string)
      modifies this
      ensures users == DeleteFrom(old(users), userId)
      ensures UniqueIds(old(users)) && AdminCount(old(users)) >= 1 ==> AdminCount(users) >= 1
      ensures UniqueIds(old(users)) ==> UniqueIds(users)
    {
      if UniqueIds(users) {
        DeleteKeepsIdsUnique(users, userId);
        if AdminCount(users) >= 1 {
          DeleteKeepsAnAdmin(users, userId);
        }
      }
      var userToDelete := Find(users, HasId(userId));
      if userToDelete.Some? && userToDelete.value.role == Admin && AdminCount(users) <= 1 {
        return;
      }
      users := Filter(users, LacksId(userId));
    }

    /** getUser: the first user with the id, if any. */
    function GetUser(id: string): (r: Option<User>)
      reads this
      ensures r.None? <==> forall u :: u in users ==> u.id != id
      ensures r.Some? ==>
        exists i :: 0 <= i < |users| && users[i] == r.value && r.value.id == id && (
          forall j :: 0 <= j < i ==> users[j].id != id)
    {
      var r := Find(users, HasId(id));
      assert r.None? <==> forall i :: 0 <= i < |users| ==> !HasId(id)(users[i]);
      r
    }

    /** getAllUsers: the list itself. */
    function GetAllUsers(): (r: seq<User>)
      reads this
      ensures r == users
    {
      users
    }
  }
}
