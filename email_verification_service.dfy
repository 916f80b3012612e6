/**
 * EmailVerificationService: issuing a verification token for a new account,
 * redeeming it, and asking whether an account still has one outstanding.
 * Redemption is specified by three functions of the two tables: the outcome
 * of the chain of checks, and each table afterwards.
 */
module EmailVerification {
  import opened Common
  import opened UserEntity
  import opened TokenEntity
  import opened Repositories

  /** Why verifyToken returned what it did; only Verified makes it return true. */
  datatype VerifyOutcome =
    | TokenNotFound
    | EmailMismatch
    | TokenExpired
    | TokenAlreadyUsed
    | UserNotFound
    | Verified

  /** A stored token that email may redeem at now: bound to email, unexpired and unused. */
  predicate Redeemable(t: TokenRow, email: string, now: Instant)
  {
    t.userEmail == email && !ExpiredAt(t.expiresAt, now) && !t.verified
  }

  /** The outcome of verifyToken(email, value) at now, over the token and user tables. */
  function Verification(tokens: map<nat, TokenRow>, users: map<nat, UserRow>, email: string, value: string, now: Instant): (r: VerifyOutcome)
    requires TokensUnique(tokens) && UsernamesUnique(users)
    ensures r == TokenNotFound <==> !HasToken(tokens, value)
    ensures HasToken(tokens, value) ==>
      var t := tokens[TokenIdByValue(tokens, value)];
      && (r == EmailMismatch <==> t.userEmail != email)
      && (r == TokenExpired <==> t.userEmail == email && ExpiredAt(t.expiresAt, now))
      && (r == TokenAlreadyUsed <==> t.userEmail == email && !ExpiredAt(t.expiresAt, now) && t.verified)
    ensures r in {UserNotFound, Verified} <==> HasToken(tokens, value) && Redeemable(tokens[TokenIdByValue(tokens, value)], email, now)
    ensures r == Verified <==> r in {UserNotFound, Verified} && HasUsername(users, email)
  {
    if !HasToken(tokens, value) then TokenNotFound
    else
      var t := tokens[TokenIdByValue(tokens, value)];
      if t.userEmail != email then EmailMismatch
      else if ExpiredAt(t.expiresAt, now) then TokenExpired
      else if t.verified then TokenAlreadyUsed
      else if !HasUsername(users, email) then UserNotFound
      else Verified
  }

  /** The token table after verifyToken: a redeemable token is marked used, whether or not its user exists. */
  function TokensAfterVerification(tokens: map<nat, TokenRow>, users: map<nat, UserRow>, email: string, value: string, now: Instant): (r: map<nat, TokenRow>)
    requires TokensUnique(tokens) && UsernamesUnique(users)
    ensures r.Keys == tokens.Keys
    ensures forall id :: id in tokens ==> r[id] == tokens[id] || (r[id] == tokens[id].(verified := true) && tokens[id].token == value)
    ensures Verification(tokens, users, email, value, now) in {UserNotFound, Verified} <==> r != tokens
  {
    if Verification(tokens, users, email, value, now) in {UserNotFound, Verified} then
      var id := TokenIdByValue(tokens, value);
      assert tokens[id].verified != tokens[id].(verified := true).verified;
      tokens[id := tokens[id].(verified := true)]
    else tokens
  }

  /** The user table after verifyToken: only on success, the token's user becomes verified. */
  function UsersAfterVerification(tokens: map<nat, TokenRow>, users: map<nat, UserRow>, email: string, value: string, now: Instant): (r: map<nat, UserRow>)
    requires TokensUnique(tokens) && UsernamesUnique(users)
    ensures r.Keys == users.Keys
    ensures Verification(tokens, users, email, value, now) != Verified ==> r == users
    ensures Verification(tokens, users, email, value, now) == Verified ==>
      var uid := UserIdByName(users, email);
      && r[uid].emailVerified
      && (forall id :: id in users && id != uid ==> r[id] == users[id])
      && r[uid] == MergedUser(users[uid], users[uid].(emailVerified := true), now)
  {
    if Verification(tokens, users, email, value, now) == Verified then
      var uid := UserIdByName(users, email);
      users[uid := MergedUser(users[uid], users[uid].(emailVerified := true), now)]
    else users
  }

  /** Marking a token used keeps the token values, so they stay unique. */
  lemma VerificationKeepsTokensUnique(tokens: map<nat, TokenRow>, users: map<nat, UserRow>, email: string, value: string, now: Instant)
    requires TokensUnique(tokens) && UsernamesUnique(users)
    ensures TokensUnique(TokensAfterVerification(tokens, users, email, value, now))
    ensures forall id :: id in tokens ==> TokensAfterVerification(tokens, users, email, value, now)[id].token == tokens[id].token
  {
  }

  /** Updating a user's flag keeps the usernames, so they stay unique. */
  lemma VerificationKeepsUsernamesUnique(tokens: map<nat, TokenRow>, users: map<nat, UserRow>, email: string, value: string, now: Instant)
    requires TokensUnique(tokens) && UsernamesUnique(users)
    ensures UsernamesUnique(UsersAfterVerification(tokens, users, email, value, now))
  {
    var r := UsersAfterVerification(tokens, users, email, value, now);
    forall a, b | a in r && b in r && r[a].username == r[b].username
      ensures a == b
    {
      assert r[a].username == users[a].username && r[b].username == users[b].username;
    }
  }

  /**
   * A token cannot be redeemed twice: once verifyToken has marked it used, a
   * second call with the same value fails (as used, or as expired if time has
   * passed its expiry) and changes nothing.
   */
  lemma SecondVerificationFails(tokens: map<nat, TokenRow>, users: map<nat, UserRow>, email: string, value: string, now: Instant, email': string, later: Instant)
    requires TokensUnique(tokens) && UsernamesUnique(users)
    requires Verification(tokens, users, email, value, now) in {UserNotFound, Verified}
    ensures
      var tokens1 := TokensAfterVerification(tokens, users, email, value, now);
      var users1 := UsersAfterVerification(tokens, users, email, value, now);
      TokensUnique(tokens1) && UsernamesUnique(users1) &&
      var second := Verification(tokens1, users1, email', value, later);
      && second !in {UserNotFound, Verified}
      && TokensAfterVerification(tokens1, users1, email', value, later) == tokens1
      && UsersAfterVerification(tokens1, users1, email', value, later) == users1
  {
    VerificationKeepsTokensUnique(tokens, users, email, value, now);
    VerificationKeepsUsernamesUnique(tokens, users, email, value, now);
    var tokens1 := TokensAfterVerification(tokens, users, email, value, now);
    var users1 := UsersAfterVerification(tokens, users, email, value, now);
    var id := TokenIdByValue(tokens, value);
    assert tokens1[id].token == value && tokens1[id].verified;
    assert TokenIdByValue(tokens1, value) == id;
  }

  /**
   * The only way a user's emailVerified flag becomes true: verifyToken
   * succeeded with a redeemable token bound to that user's username.
   */
  lemma VerifiedFlagNeedsRedeemableToken(tokens: map<nat, TokenRow>, users: map<nat, UserRow>, email: string, value: string, now: Instant, uid: nat)
    requires TokensUnique(tokens) && UsernamesUnique(users)
    requires uid in users && !users[uid].emailVerified
    requires UsersAfterVerification(tokens, users, email, value, now)[uid].emailVerified
    ensures Verification(tokens, users, email, value, now) == Verified
    ensures users[uid].username == email
    ensures HasToken(tokens, value) && Redeemable(tokens[TokenIdByValue(tokens, value)], email, now)
  {
  }

  /**
   * verifyToken only ever closes tokens, and only the verifying address's:
   * an address has an open token afterwards only if it had one before, and
   * for every other address hasUnverifiedToken answers as it did before.
   */
  lemma VerificationOnlyClosesTokens(tokens: map<nat, TokenRow>, users: map<nat, UserRow>, email: string, value: string, now: Instant, e: string)
    requires TokensUnique(tokens) && UsernamesUnique(users)
    ensures HasOpenToken(TokensAfterVerification(tokens, users, email, value, now), e) ==> HasOpenToken(tokens, e)
    ensures e != email ==>
      (HasOpenToken(TokensAfterVerification(tokens, users, email, value, now), e) <==> HasOpenToken(tokens, e))
  {
    var after := TokensAfterVerification(tokens, users, email, value, now);
    if HasOpenToken(after, e) {
      var id :| id in after && after[id].userEmail == e && !after[id].verified;
      assert tokens[id] == after[id];
    }
    if e != email && HasOpenToken(tokens, e) {
      var id :| id in tokens && tokens[id].userEmail == e && !tokens[id].verified;
      if after != tokens {
        assert id != TokenIdByValue(tokens, value);
      }
      assert after[id] == tokens[id];
    }
  }

  /** EmailVerificationService, over the token table and the user table it updates. */
  class EmailVerificationService {
    const tokens: TokenRepository
    const users: UserRepository

    constructor (tokens: TokenRepository, users: UserRepository)
      ensures this.tokens == tokens && this.users == users
    {
      this.tokens := tokens;
      this.users := users;
    }

    /**
     * createToken: one new unused token bound to email, valued uuid and
     * expiring ExpirySeconds from now; afterwards email has an open token.
     */
    method CreateToken(email: string, now: Instant, uuid: string) returns (t: EmailVerificationToken)
      modifies tokens
      requires tokens.Valid() && !HasToken(tokens.rows, uuid)
      ensures tokens.Valid() && fresh(t) && t.token == Some(uuid)
      ensures tokens.nextId == old(tokens.nextId) + 1
      ensures tokens.rows == old(tokens.rows)[old(tokens.nextId) := TokenRow(uuid, email, now, PlusSeconds(now, ExpirySeconds), false)]
      ensures HasOpenToken(tokens.rows, email)
    {
      t := new EmailVerificationToken();
      t.SetUserEmail(email);
      tokens.Insert(t, now, uuid);
      assert tokens.rows[old(tokens.nextId)].userEmail == email;
    }

    /** hasUnverifiedToken: some token bound to email is not yet used. */
    function HasUnverifiedToken(email: string): (r: bool)
      reads tokens
      ensures r <==> exists id :: id in tokens.rows && tokens.rows[id].userEmail == email && !tokens.rows[id].verified
    {
      HasOpenToken(tokens.rows, email)
    }

    /** verifyToken: the chain of Verification, with the effects of TokensAfterVerification and UsersAfterVerification. */
    method VerifyToken(email: string, value: string, now: Instant) returns (ok: bool)
      modifies tokens`rows, users`rows
      requires tokens.Valid() && users.Valid()
      ensures tokens.Valid() && users.Valid()
      ensures ok <==> Verification(old(tokens.rows), old(users.rows), email, value, now) == Verified
      ensures tokens.rows == TokensAfterVerification(old(tokens.rows), old(users.rows), email, value, now)
      ensures users.rows == UsersAfterVerification(old(tokens.rows), old(users.rows), email, value, now)
    {
      var t := tokens.FindByToken(value);
      if t == null {
        return false;
      }
      if t.userEmail.value != email {
        return false;
      }
      if t.IsExpired(now) {
        return false;
      }
      if t.verified {
        return false;
      }
      t.SetVerified(true);
      tokens.Update(t);
      var u := users.FindByUsername(email);
      if u != null {
        u.SetEmailVerified(true);
        users.Update(u, now);
        return true;
      }
      return false;
    }
  }
}
