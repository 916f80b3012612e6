/**
 * UserService, whose source is not part of this model, as the controllers
 * use it: a store of accounts over the users table that hashes passwords.
 * BCrypt is a parameter: the caller passes the hash of the raw password.
 */
module UserServices {
  import opened Common
  import opened UserEntity
  import opened Repositories

  /** isEmailVerified (of both UserController and ImageController): an authenticated principal whose stored account is verified. */
  function CallerVerified(users: map<nat, UserRow>, auth: Option<Auth>): (r: bool)
    requires UsernamesUnique(users)
    ensures r <==> auth.Some? && auth.value.authenticated &&
                   exists id :: id in users && users[id].username == auth.value.name && users[id].emailVerified
  {
    auth.Some? && auth.value.authenticated && HasUsername(users, auth.value.name)
    && users[UserIdByName(users, auth.value.name)].emailVerified
  }

  class UserService {
    const users: UserRepository

    constructor (users: UserRepository)
      ensures this.users == users
    {
      this.users := users;
    }

    /** isEmailVerified, on the current users table (the private helper both controllers repeat). */
    method IsEmailVerified(auth: Option<Auth>) returns (r: bool)
      requires users.Valid()
      ensures r == CallerVerified(users.rows, auth)
    {
      if auth.None? || !auth.value.authenticated {
        return false;
      }
      var user := users.FindByUsername(auth.value.name);
      return user != null && user.emailVerified;
    }

    /** createUser: stores the account with the password replaced by its hash. */
    method CreateUser(u: User, hash: string, now: Instant)
      modifies users, u`password, u`id, u`accountCreated, u`accountUpdated
      requires users.Valid() && u.id == None && !HasUsername(users.rows, u.username)
      ensures users.Valid()
      ensures users.nextId == old(users.nextId) + 1 && u.id == Some(old(users.nextId))
      ensures users.rows == old(users.rows)[old(users.nextId) :=
        UserRow(old(u.username), hash, old(u.firstName), old(u.lastName), now, now, old(u.emailVerified))]
    {
      u.SetPassword(hash);
      users.Insert(u, now);
    }

    /** updateUser: saves the loaded account, re-hashing the password only when a new one is given. */
    method UpdateUser(u: User, newPassword: Option<string>, hash: string, now: Instant)
      modifies users`rows, u`password, u`accountUpdated
      requires users.Valid() && u.id.Some? && u.id.value in users.rows && u.Stamped()
      requires forall id :: id in users.rows && id != u.id.value ==> users.rows[id].username != u.username
      ensures users.Valid()
      ensures users.rows == old(users.rows)[u.id.value :=
        MergedUser(old(users.rows[u.id.value]),
                   old(u.Row()).(password := if newPassword.Some? then hash else old(u.password)), now)]
    {
      if newPassword.Some? {
        u.SetPassword(hash);
      }
      users.Update(u, now);
    }
  }
}
