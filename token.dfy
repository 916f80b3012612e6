/**
 * The EmailVerificationToken entity: its stored row, the expiry rule, and the
 * entity object with its setters and creation hook.
 */
module TokenEntity {
  import opened Common

  /** A token expires this many seconds after it is created. */
  const ExpirySeconds: int := 60

  /** A row of the email_verification_tokens table; the id is the table's key. */
  datatype TokenRow = TokenRow(
    token: string,
    userEmail: string,
    createdAt: Instant,
    expiresAt: Instant,
    verified: bool)

  /** isExpired: the instant now is strictly after expiresAt. */
  predicate ExpiredAt(expiresAt: Instant, now: Instant)
  {
    IsAfter(now, expiresAt)
  }

  /** A token is still usable at exactly its expiry instant, and expired one tick later. */
  lemma UsableUntilExpiry(expiresAt: Instant)
    ensures !ExpiredAt(expiresAt, expiresAt)
    ensures ExpiredAt(expiresAt, expiresAt + 1)
  {
  }

  /** Once expired, a token stays expired. */
  lemma ExpiryIsMonotone(expiresAt: Instant, t: Instant, t': Instant)
    requires ExpiredAt(expiresAt, t) && t <= t'
    ensures ExpiredAt(expiresAt, t')
  {
  }

  /**
   * A token created at c (and so expiring ExpirySeconds later) is expired at t
   * exactly when more than sixty seconds have passed since c: it is usable for
   * the whole first minute, its last instant included.
   */
  lemma TokenLifetime(c: Instant, t: Instant)
    ensures ExpiredAt(PlusSeconds(c, ExpirySeconds), t) <==> t - c > 60 * NanosPerSecond
    ensures c <= t <= c + 60 * NanosPerSecond ==> !ExpiredAt(PlusSeconds(c, ExpirySeconds), t)
  {
  }

  /** The EmailVerificationToken entity object, with the fields of the Java class. */
  class EmailVerificationToken {
    var id: Option<nat>
    var token: Option<string>
    var userEmail: Option<string>
    var createdAt: Option<Instant>
    var expiresAt: Option<Instant>
    var verified: bool

    /** A new token: nothing assigned yet, and verified at its default, false. */
    constructor ()
      ensures id == None && token == None && userEmail == None
      ensures createdAt == None && expiresAt == None
      ensures !verified
    {
      id := None;
      token := None;
      userEmail := None;
      createdAt := None;
      expiresAt := None;
      verified := false;
    }

    /** The managed entity loaded from the stored row with key id. */
    constructor Load(id: nat, row: TokenRow)
      ensures this.id == Some(id) && Storable() && Row() == row
    {
      this.id := Some(id);
      token := Some(row.token);
      userEmail := Some(row.userEmail);
      createdAt := Some(row.createdAt);
      expiresAt := Some(row.expiresAt);
      verified := row.verified;
    }

    /** All non-null columns assigned, so the object can be written as a row. */
    predicate Storable()
      reads this
    {
      token.Some? && userEmail.Some? && createdAt.Some? && expiresAt.Some?
    }

    /** The row this object is written as. */
    function Row(): TokenRow
      reads this
      requires Storable()
    {
      TokenRow(token.value, userEmail.value, createdAt.value, expiresAt.value, verified)
    }

    method SetUserEmail(email: string)
      modifies this`userEmail
      ensures userEmail == Some(email)
    {
      userEmail := Some(email);
    }

    method SetVerified(verified: bool)
      modifies this`verified
      ensures this.verified == verified
    {
      this.verified := verified;
    }

    /**
     * @PrePersist: a preset token value is kept and a fresh one (uuid) is used
     * only when none is set; the token expires ExpirySeconds after creation.
     */
    method OnCreate(now: Instant, uuid: string)
      modifies this`token, this`createdAt, this`expiresAt
      ensures token == if old(token).None? then Some(uuid) else old(token)
      ensures createdAt == Some(now)
      ensures expiresAt == Some(PlusSeconds(now, ExpirySeconds))
    {
      if token.None? {
        token := Some(uuid);
      }
      createdAt := Some(now);
      expiresAt := Some(PlusSeconds(createdAt.value, ExpirySeconds));
    }

    /** isExpired, against the given current instant. */
    function IsExpired(now: Instant): (r: bool)
      reads this
      requires expiresAt.Some?
      ensures r <==> now > expiresAt.value
    {
      ExpiredAt(expiresAt.value, now)
    }
  }
}
