/**
 * The User entity: its stored row, its JSON view, the bean-validation
 * constraints on a registration body, and the entity object with its
 * setters and persistence hooks.
 */
module UserEntity {
  import opened Common

  /** A row of the users table; the id is the table's key. */
  datatype UserRow = UserRow(
    username: string,
    password: string,
    firstName: string,
    lastName: string,
    accountCreated: Instant,
    accountUpdated: Instant,
    emailVerified: bool)

  /** The JSON a client sees for a user. The password is write-only and has no place here. */
  datatype UserView = UserView(
    id: nat,
    username: string,
    firstName: string,
    lastName: string,
    accountCreated: Instant,
    accountUpdated: Instant,
    emailVerified: bool)

  /** Serialising the stored user id/row. */
  function ViewOfUser(id: nat, row: UserRow): (v: UserView)
    ensures v.id == id && v.username == row.username && v.emailVerified == row.emailVerified
    ensures v.firstName == row.firstName && v.lastName == row.lastName
    ensures v.accountCreated == row.accountCreated && v.accountUpdated == row.accountUpdated
  {
    UserView(id, row.username, row.firstName, row.lastName, row.accountCreated, row.accountUpdated, row.emailVerified)
  }

  /** The serialised view does not depend on the stored password. */
  lemma ViewIgnoresPassword(id: nat, row: UserRow, password: string)
    ensures ViewOfUser(id, row) == ViewOfUser(id, row.(password := password))
  {
  }

  /**
   * Two stored users serialise alike exactly when they differ at most in
   * the password: the view hides the password and nothing else.
   */
  lemma ViewHidesOnlyPassword(id1: nat, r1: UserRow, id2: nat, r2: UserRow)
    ensures ViewOfUser(id1, r1) == ViewOfUser(id2, r2) <==> id1 == id2 && r1.(password := r2.password) == r2
  {
    if ViewOfUser(id1, r1) == ViewOfUser(id2, r2) {
      assert r1.(password := r2.password) == r2;
    }
  }

  /** The writable fields of a registration body as bound from JSON; absent keys are None. */
  datatype UserInput = UserInput(
    username: Option<string>,
    password: Option<string>,
    firstName: Option<string>,
    lastName: Option<string>)

  /** @NotBlank: present and holding some character above U+0020. */
  predicate NotBlank(s: Option<string>)
  {
    s.Some? && !IsBlank(s.value)
  }

  /** @Email, approximated: a non-empty local part, one '@', a non-empty domain, no blanks. */
  predicate EmailShaped(s: string)
  {
    var at := LastIndexOf(s, '@');
    0 < at < |s| - 1 && '@' !in s[..at] && forall i :: 0 <= i < |s| ==> s[i] > ' '
  }

  const MinPasswordLength: nat := 8

  /** The @Valid constraints of a registration body. */
  predicate ValidUserInput(u: UserInput)
  {
    && NotBlank(u.username) && EmailShaped(u.username.value)
    && NotBlank(u.password) && |u.password.value| >= MinPasswordLength
    && NotBlank(u.firstName)
    && NotBlank(u.lastName)
  }

  /** A stored user satisfies the entity constraints (uniqueness is a property of the table). */
  predicate ValidUserRow(r: UserRow)
  {
    ValidUserInput(UserInput(Some(r.username), Some(r.password), Some(r.firstName), Some(r.lastName)))
  }

  /** The User entity object, with the fields of the Java class. */
  class User {
    var id: Option<nat>
    var username: string
    var password: string
    var firstName: string
    var lastName: string
    var accountCreated: Option<Instant>
    var accountUpdated: Option<Instant>
    var emailVerified: bool

    /** A user bound from a request body: read-only fields unset, emailVerified at its default. */
    constructor FromBody(username: string, password: string, firstName: string, lastName: string)
      ensures id == None && accountCreated == None && accountUpdated == None
      ensures !emailVerified
      ensures this.username == username && this.password == password
      ensures this.firstName == firstName && this.lastName == lastName
    {
      id := None;
      this.username := username;
      this.password := password;
      this.firstName := firstName;
      this.lastName := lastName;
      accountCreated := None;
      accountUpdated := None;
      emailVerified := false;
    }

    /** The managed entity loaded from the stored row with key id. */
    constructor Load(id: nat, row: UserRow)
      ensures this.id == Some(id) && Stamped() && Row() == row
    {
      this.id := Some(id);
      username := row.username;
      password := row.password;
      firstName := row.firstName;
      lastName := row.lastName;
      accountCreated := Some(row.accountCreated);
      accountUpdated := Some(row.accountUpdated);
      emailVerified := row.emailVerified;
    }

    /** Both timestamps have been assigned, so the object can be written as a row. */
    predicate Stamped()
      reads this
    {
      accountCreated.Some? && accountUpdated.Some?
    }

    /** The row this object is written as. */
    function Row(): UserRow
      reads this
      requires Stamped()
    {
      UserRow(username, password, firstName, lastName, accountCreated.value, accountUpdated.value, emailVerified)
    }

    /** setId ignores client input. */
    method SetId(id: Option<nat>)
      modifies this
      ensures unchanged(this)
    {
    }

    /** setAccountCreated ignores client input. */
    method SetAccountCreated(t: Instant)
      modifies this
      ensures unchanged(this)
    {
    }

    /** setAccountUpdated ignores client input. */
    method SetAccountUpdated(t: Instant)
      modifies this
      ensures unchanged(this)
    {
    }

    method SetFirstName(firstName: string)
      modifies this`firstName
      ensures this.firstName == firstName
    {
      this.firstName := firstName;
    }

    method SetLastName(lastName: string)
      modifies this`lastName
      ensures this.lastName == lastName
    {
      this.lastName := lastName;
    }

    method SetPassword(password: string)
      modifies this`password
      ensures this.password == password
    {
      this.password := password;
    }

    method SetEmailVerified(emailVerified: bool)
      modifies this`emailVerified
      ensures this.emailVerified == emailVerified
    {
      this.emailVerified := emailVerified;
    }

    /** @PrePersist: both timestamps take the current instant. */
    method OnCreate(now: Instant)
      modifies this`accountCreated, this`accountUpdated
      ensures accountCreated == Some(now) && accountUpdated == Some(now)
    {
      accountCreated := Some(now);
      accountUpdated := Some(now);
    }

    /** @PreUpdate: only accountUpdated moves; accountCreated is not updatable. */
    method OnUpdate(now: Instant)
      modifies this`accountUpdated
      ensures accountUpdated == Some(now)
    {
      accountUpdated := Some(now);
    }
  }
}
