/**
 * UserController: registration, reading and updating one's own account, and
 * the email-verification link. Each handler's status is a function of the
 * tables before the request; the handler methods are proved to return it and
 * to change the tables exactly as the matching function says.
 */
module UserControllers {
  import opened Common
  import opened UserEntity
  import opened TokenEntity
  import opened Repositories
  import opened EmailVerification
  import opened UserServices

  /** The only keys an account update may carry. */
  const UpdatableKeys: set<string> := {"first_name", "last_name", "password"}

  /** The Location of a created account. */
  function UserLocation(id: nat): string
  {
    "/v1/user/" + NatToString(id)
  }

  /** Distinct accounts have distinct Locations. */
  lemma UserLocationInjective(a: nat, b: nat)
    requires UserLocation(a) == UserLocation(b)
    ensures a == b
  {
    var prefix := "/v1/user/";
    assert UserLocation(a)[|prefix|..] == NatToString(a);
    assert UserLocation(b)[|prefix|..] == NatToString(b);
    NatToStringInjective(a, b);
  }

  /** createUser: 400 for an invalid body, a taken username, or a verification still pending; otherwise 201. */
  function CreateUserStatus(users: map<nat, UserRow>, tokens: map<nat, TokenRow>, body: UserInput): (r: Status)
    ensures r in {Created, BadRequest}
    ensures r == Created <==> ValidUserInput(body) && !HasUsername(users, body.username.value) && !HasOpenToken(tokens, body.username.value)
  {
    if !ValidUserInput(body) then BadRequest
    else if HasUsername(users, body.username.value) then BadRequest
    else if HasOpenToken(tokens, body.username.value) then BadRequest
    else Created
  }

  /** The row a successful registration stores: the hashed password, not verified, stamped now. */
  function RegisteredRow(body: UserInput, hash: string, now: Instant): (r: UserRow)
    requires ValidUserInput(body)
    ensures r.username == body.username.value && r.password == hash && !r.emailVerified
    ensures r.firstName == body.firstName.value && r.lastName == body.lastName.value
    ensures r.accountCreated == now == r.accountUpdated
  {
    UserRow(body.username.value, hash, body.firstName.value, body.lastName.value, now, now, false)
  }

  /**
   * After a registration, registering the same username again is refused:
   * the account exists and its verification token is still open.
   */
  lemma SecondRegistrationRefused(users: map<nat, UserRow>, tokens: map<nat, TokenRow>, body: UserInput, hash: string, now: Instant,
                                  uid: nat, tid: nat, uuid: string, body': UserInput)
    requires CreateUserStatus(users, tokens, body) == Created
    requires body'.username == body.username
    ensures
      var users' := users[uid := RegisteredRow(body, hash, now)];
      var tokens' := tokens[tid := TokenRow(uuid, body.username.value, now, PlusSeconds(now, ExpirySeconds), false)];
      && CreateUserStatus(users', tokens', body') == BadRequest
      && HasUsername(users', body.username.value)
      && HasOpenToken(tokens', body.username.value)
  {
    var users' := users[uid := RegisteredRow(body, hash, now)];
    var tokens' := tokens[tid := TokenRow(uuid, body.username.value, now, PlusSeconds(now, ExpirySeconds), false)];
    assert users'[uid].username == body.username.value;
    assert tokens'[tid].userEmail == body.username.value && !tokens'[tid].verified;
  }

  /**
   * A fresh registration yields an account that is not yet verified: the
   * usernames stay unique, the new username names the new key, and its owner
   * gets 403 from the account endpoints until the token is redeemed.
   */
  lemma NewAccountUnverified(users: map<nat, UserRow>, tokens: map<nat, TokenRow>, body: UserInput, hash: string, now: Instant, uid: nat)
    requires UsernamesUnique(users) && uid !in users
    requires CreateUserStatus(users, tokens, body) == Created
    ensures
      var users' := users[uid := RegisteredRow(body, hash, now)];
      var name := body.username.value;
      && UsernamesUnique(users')
      && HasUsername(users', name) && UserIdByName(users', name) == uid
      && !CallerVerified(users', Some(Auth(name, true)))
      && OwnAccountStatus(users', Auth(name, true), uid) == Forbidden
  {
    var users' := users[uid := RegisteredRow(body, hash, now)];
    var name := body.username.value;
    forall a, b | a in users' && b in users' && users'[a].username == users'[b].username
      ensures a == b
    {
      if a != uid && b != uid {
        assert users'[a] == users[a] && users'[b] == users[b];
      }
    }
    assert users'[uid].username == name;
  }

  /**
   * The access rule shared by getUser and updateUser: an unverified caller gets
   * 403 whatever the id, then a missing id 404, then another user's id 403.
   */
  function OwnAccountStatus(users: map<nat, UserRow>, auth: Auth, userId: nat): (r: Status)
    requires UsernamesUnique(users)
    ensures r in {Ok, Forbidden, NotFound}
    ensures !CallerVerified(users, Some(auth)) ==> r == Forbidden
    ensures r == NotFound <==> CallerVerified(users, Some(auth)) && userId !in users
    ensures r == Ok <==> CallerVerified(users, Some(auth)) && userId in users && users[userId].username == auth.name
    ensures r == Ok ==> HasUsername(users, auth.name) && userId == UserIdByName(users, auth.name)
  {
    if !CallerVerified(users, Some(auth)) then Forbidden
    else if userId !in users then NotFound
    else if users[userId].username != auth.name then Forbidden
    else Ok
  }

  /** updateUser: the access rule, then 400 for a key outside UpdatableKeys or a password shorter than 8, else 204. */
  function UpdateUserStatus(users: map<nat, UserRow>, auth: Auth, userId: nat, updates: map<string, string>): (r: Status)
    requires UsernamesUnique(users)
    ensures OwnAccountStatus(users, auth, userId) != Ok ==> r == OwnAccountStatus(users, auth, userId)
    ensures r == NoContent <==> OwnAccountStatus(users, auth, userId) == Ok && updates.Keys <= UpdatableKeys &&
                                ("password" in updates ==> |updates["password"]| >= MinPasswordLength)
    ensures OwnAccountStatus(users, auth, userId) == Ok ==> r in {NoContent, BadRequest}
  {
    var access := OwnAccountStatus(users, auth, userId);
    if access != Ok then access
    else if !(updates.Keys <= UpdatableKeys) then BadRequest
    else if "password" in updates && |updates["password"]| < MinPasswordLength then BadRequest
    else NoContent
  }

  /** The account as updateUser leaves it before saving: only the supplied names, and the password's hash. */
  function UpdatedAccount(stored: UserRow, updates: map<string, string>, hash: string): (r: UserRow)
    ensures r.username == stored.username && r.emailVerified == stored.emailVerified
    ensures r.accountCreated == stored.accountCreated && r.accountUpdated == stored.accountUpdated
    ensures r.firstName == if "first_name" in updates then updates["first_name"] else stored.firstName
    ensures r.lastName == if "last_name" in updates then updates["last_name"] else stored.lastName
    ensures r.password == if "password" in updates then hash else stored.password
  {
    stored.(firstName := if "first_name" in updates then updates["first_name"] else stored.firstName,
            lastName := if "last_name" in updates then updates["last_name"] else stored.lastName,
            password := if "password" in updates then hash else stored.password)
  }

  /** An update with no keys writes nothing: the stored row, timestamps included, stays as it was. */
  lemma EmptyUpdateIsNoOp(stored: UserRow, hash: string, now: Instant)
    ensures MergedUser(stored, UpdatedAccount(stored, map[], hash), now) == stored
  {
  }

  /**
   * An update writes nothing exactly when every value it supplies is already
   * stored (a new password counts by its hash); any other update is written.
   */
  lemma UpdateIsNoOpExactlyWhenUnchanged(stored: UserRow, updates: map<string, string>, hash: string, now: Instant)
    ensures MergedUser(stored, UpdatedAccount(stored, updates, hash), now) == stored <==>
      && ("first_name" in updates ==> updates["first_name"] == stored.firstName)
      && ("last_name" in updates ==> updates["last_name"] == stored.lastName)
      && ("password" in updates ==> hash == stored.password)
  {
    var current := UpdatedAccount(stored, updates, hash);
    if current != stored {
      var r := MergedUser(stored, current, now);
      assert r.firstName != stored.firstName || r.lastName != stored.lastName || r.password != stored.password;
    }
  }

  /** The loop of updateUser over the update's keys: true iff every key is updatable. */
  method OnlyUpdatableKeys(keys: set<string>) returns (ok: bool)
    ensures ok <==> keys <= UpdatableKeys
  {
    var rest := keys;
    while rest != {}
      invariant rest <= keys
      invariant keys - rest <= UpdatableKeys
      decreases |rest|
    {
      var key :| key in rest;
      if key != "first_name" && key != "last_name" && key != "password" {
        return false;
      }
      rest := rest - {key};
    }
    return true;
  }

  /** UserController, over the users and tokens tables shared with its services. */
  class UserController {
    const users: UserRepository
    const tokens: TokenRepository
    const userService: UserService
    const verification: EmailVerificationService

    constructor (users: UserRepository, tokens: TokenRepository)
      ensures this.users == users && this.tokens == tokens && Wired()
    {
      this.users := users;
      this.tokens := tokens;
      userService := new UserService(users);
      verification := new EmailVerificationService(tokens, users);
    }

    /** The services work on the controller's own tables. */
    predicate Wired()
    {
      userService.users == users && verification.users == users && verification.tokens == tokens
    }

    ghost predicate Valid()
      reads users, tokens
    {
      Wired() && users.Valid() && tokens.Valid()
    }

    /**
     * POST /v1/user: on 201 one account and one open token are added and the
     * Location names the new account; otherwise nothing changes. Whether the
     * notification publish fails does not affect the outcome.
     */
    method CreateUser(body: UserInput, now: Instant, uuid: string, hash: string, publishFails: bool)
      returns (status: Status, location: Option<string>)
      modifies users, tokens
      requires Valid() && !HasToken(tokens.rows, uuid)
      ensures Valid()
      ensures status == CreateUserStatus(old(users.rows), old(tokens.rows), body)
      ensures status != Created ==> users.rows == old(users.rows) && tokens.rows == old(tokens.rows) && location == None
      ensures status == Created ==>
        && users.rows == old(users.rows)[old(users.nextId) := RegisteredRow(body, hash, now)]
        && tokens.rows == old(tokens.rows)[old(tokens.nextId) := TokenRow(uuid, body.username.value, now, PlusSeconds(now, ExpirySeconds), false)]
        && location == Some(UserLocation(old(users.nextId)))
    {
      if !ValidUserInput(body) {
        return BadRequest, None;
      }
      var username := body.username.value;
      if HasUsername(userService.users.rows, username) {
        return BadRequest, None;
      }
      if verification.HasUnverifiedToken(username) {
        return BadRequest, None;
      }
      var user := new User.FromBody(username, body.password.value, body.firstName.value, body.lastName.value);
      userService.CreateUser(user, hash, now);
      var token := verification.CreateToken(user.username, now, uuid);
      // The publish of the verification message may fail; the failure is swallowed.
      status, location := Created, Some(UserLocation(user.id.value));
    }

    /** GET /v1/user/{userId}: the caller's own account view with 200, or the access rule's status. */
    method GetUser(userId: nat, auth: Auth) returns (status: Status, view: Option<UserView>)
      requires Valid()
      ensures status == OwnAccountStatus(users.rows, auth, userId)
      ensures view == if status == Ok then Some(ViewOfUser(userId, users.rows[userId])) else None
    {
      var verified := userService.IsEmailVerified(Some(auth));
      if !verified {
        return Forbidden, None;
      }
      var user := userService.users.FindById(userId);
      if user == null {
        return NotFound, None;
      }
      if user.username != auth.name {
        return Forbidden, None;
      }
      return Ok, Some(ViewOfUser(userId, user.Row()));
    }

    /**
     * PUT /v1/user/{userId}: on 204 the account takes UpdatedAccount, saved
     * through the dirty-checked merge; on every other status nothing changes.
     * hash is the hash of the new password, used only when one is supplied.
     */
    method UpdateUser(userId: nat, auth: Auth, updates: map<string, string>, hash: string, now: Instant) returns (status: Status)
      modifies users`rows
      requires Valid()
      ensures Valid()
      ensures status == UpdateUserStatus(old(users.rows), auth, userId, updates)
      ensures status != NoContent ==> users.rows == old(users.rows)
      ensures status == NoContent ==>
        users.rows == old(users.rows)[userId := MergedUser(old(users.rows[userId]), UpdatedAccount(old(users.rows[userId]), updates, hash), now)]
    {
      var verified := userService.IsEmailVerified(Some(auth));
      if !verified {
        return Forbidden;
      }
      var user := userService.users.FindById(userId);
      if user == null {
        return NotFound;
      }
      if user.username != auth.name {
        return Forbidden;
      }
      var keysOk := OnlyUpdatableKeys(updates.Keys);
      if !keysOk {
        return BadRequest;
      }
      var newPassword: Option<string> := None;
      if "password" in updates {
        newPassword := Some(updates["password"]);
        if |newPassword.value| < MinPasswordLength {
          return BadRequest;
        }
      }
      if "first_name" in updates {
        user.SetFirstName(updates["first_name"]);
      }
      if "last_name" in updates {
        user.SetLastName(updates["last_name"]);
      }
      userService.UpdateUser(user, newPassword, hash, now);
      return NoContent;
    }

    /**
     * GET /v1/user/verify: 200 iff verifyToken returns true, else 400. A
     * failure inside the transactional verifyToken rolls its writes back and
     * also gives 400.
     */
    method VerifyEmail(email: string, value: string, now: Instant, failure: bool) returns (status: Status)
      modifies users`rows, tokens`rows
      requires Valid()
      ensures Valid()
      ensures status == Ok <==> !failure && Verification(old(tokens.rows), old(users.rows), email, value, now) == Verified
      ensures status in {Ok, BadRequest}
      ensures failure ==> users.rows == old(users.rows) && tokens.rows == old(tokens.rows)
      ensures !failure ==> tokens.rows == TokensAfterVerification(old(tokens.rows), old(users.rows), email, value, now)
      ensures !failure ==> users.rows == UsersAfterVerification(old(tokens.rows), old(users.rows), email, value, now)
    {
      if failure {
        return BadRequest;
      }
      var verified := verification.VerifyToken(email, value, now);
      status := if verified then Ok else BadRequest;
    }
  }
}
