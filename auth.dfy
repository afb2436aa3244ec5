/** The authentication provider: the current user, logging in by e-mail,
    signing up into the user directory, and logging out
    (src/contexts/AuthContext.tsx). */
module AuthContext {
  import opened Js
  import opened Types
  import opened UsersContext

  /** How the returned promise settles: resolved, or rejected with the
      message of the thrown error. */
  datatype Outcome = Resolved | Rejected(error: string)

  /** `Omit<User, 'id'>`: the sign-up form's data. */
  datatype UserData = UserData(
    name: string,
    email: string,
    role: UserRole,
    managerId: Option<string>,
    teamId: Option<string>,
    avatarUrl: Option<string>)

  function HasEmail(email: string): User -> bool
  {
    (u: User) => u.email == email
  }

  predicate UniqueEmails(users: seq<User>)
  {
    forall i, j :: 0 <= i < j < |users| ==> users[i].email != users[j].email
  }

  /** `{ id, ...userData, email }`: the form's data under a fresh id, with
      the e-mail argument taking the place of the form's e-mail. */
  function NewUser(id: string, email: string, data: UserData): (r: User)
    ensures r.id == id && r.email == email
    ensures r.name == data.name && r.role == data.role && r.managerId == data.managerId
    ensures r.teamId == data.teamId && r.avatarUrl == data.avatarUrl
  {
    User(id, data.name, email, data.role, data.managerId, data.teamId, data.avatarUrl)
  }

  /** Sign-up refuses an e-mail already present, so the user it appends keeps
      e-mails distinct. */
  lemma SignupKeepsEmailsUnique(users: seq<User>, email: string, data: UserData, id: string, avatarFor: string -> string)
    requires UniqueEmails(users)
    requires Find(users, HasEmail(email)).None?
    ensures UniqueEmails(users + [WithAvatar(NewUser(id, email, data), avatarFor)])
  {
    var added := WithAvatar(NewUser(id, email, data), avatarFor);
    var after := users + [added];
    assert added.email == email;
    forall i, j | 0 <= i < j < |after| ensures after[i].email != after[j].email {
      if j == |users| {
        assert !HasEmail(email)(users[i]);
      } else {
        assert after[i] == users[i] && after[j] == users[j];
      }
    }
  }

  /** The `user` state of the provider, over the directory it consults. */
  class AuthSession {
    var user: Option<User>
    const directory: UserDirectory

    /** The stored current user when there is one, otherwise nobody. */
    constructor (directory: UserDirectory, stored: Option<User>)
      ensures this.directory == directory && user == stored
    {
      this.directory := directory;
      user := stored;
    }

    /** isAuthenticated: `!!user` */
    function IsAuthenticated(): (r: bool)
      reads this
      ensures r <==> user.Some?
    {
      user.Some?
    }

    /** login: the first user with the e-mail becomes the current user; with
        no such user the call is rejected and nothing changes. The password
        plays no part. */
    method Login(email: string, password: string) returns (outcome: Outcome)
      modifies this
      ensures match Find(directory.users, HasEmail(email))
        case Some(u) => outcome == Resolved && user == Some(u) && u.email == email
        case None => outcome == Rejected("Invalid credentials") && user == old(user)
    {
      var foundUser := Find(directory.users, HasEmail(email));
      if foundUser.Some? {
        user := foundUser;
        outcome := Resolved;
      } else {
        outcome := Rejected("Invalid credentials");
      }
    }

    /** signup: an e-mail already in the directory is rejected and nothing
        changes; otherwise the new user is added to the directory (which
        fills in the avatar URL) and becomes the current user as built,
        without the generated avatar. The id is `user-<clock>` in the source
        and a parameter here. */
    method Signup(email: string, password: string, data: UserData, id: string) returns (outcome: Outcome)
      modifies this, directory
      ensures Find(old(directory.users), HasEmail(email)).Some? ==>
        outcome == Rejected("Email already exists") && user == old(user) &&
        directory.users == old(directory.users)
      ensures Find(old(directory.users), HasEmail(email)).None? ==>
        outcome == Resolved && user == Some(NewUser(id, email, data)) &&
        directory.users == old(directory.users) + [WithAvatar(NewUser(id, email, data), directory.avatarFor)]
      ensures UniqueEmails(old(directory.users)) ==> UniqueEmails(directory.users)
    {
      var existingUser := Find(directory.users, HasEmail(email));
      if existingUser.Some? {
        outcome := Rejected("Email already exists");
        return;
      }
      if UniqueEmails(directory.users) {
        SignupKeepsEmailsUnique(directory.users, email, data, id, directory.avatarFor);
      }
      var newUser := NewUser(id, email, data);
      directory.AddUser(newUser);
      user := Some(newUser);
      outcome := Resolved;
    }

    /** logout: nobody is signed in afterwards. */
    method Logout()
      modifies this
      ensures user == None
    {
      user := None;
    }
  }
}
