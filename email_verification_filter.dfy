/**
 * EmailVerificationFilter: runs once per request after authentication and
 * stops, with 403 and a JSON error, a signed-in caller whose account exists
 * but is not verified, except on the public paths it skips.
 */
module EmailVerificationFilters {
  import opened Common
  import opened UserEntity
  import opened Repositories
  import opened UserServices

  /** The body written for a blocked request. */
  const NotVerifiedBody: string := "{\"error\":\"Email not verified\"}"

  /** shouldSkipFilter: account creation, the verification link, the health probe, and reads of products. */
  predicate ShouldSkipFilter(path: string, verb: string)
  {
    if path == "/v1/user" && verb == "POST" then true
    else if path == "/v1/user/verify" then true
    else if StartsWith(path, "/healthz") then true
    else if verb == "GET" && StartsWith(path, "/v1/product") then true
    else false
  }

  /** The requests the filter lets through unchecked: registration, verification, health and product reads. */
  lemma SkippedRequests(m: string, rest: string)
    ensures ShouldSkipFilter("/v1/user", "POST")
    ensures ShouldSkipFilter("/v1/user/verify", m)
    ensures ShouldSkipFilter("/healthz" + rest, m)
    ensures ShouldSkipFilter("/v1/product" + rest, "GET")
  {
    assert ("/healthz" + rest)[..8] == "/healthz";
    assert ("/v1/product" + rest)[..11] == "/v1/product";
  }

  /** The requests the filter checks: account reads and updates, and product writes. */
  lemma CheckedRequests(id: string, rest: string)
    requires id != "verify"
    ensures !ShouldSkipFilter("/v1/user", "GET")
    ensures !ShouldSkipFilter("/v1/user/" + id, "PUT")
    ensures !ShouldSkipFilter("/v1/product" + rest, "POST")
    ensures !ShouldSkipFilter("/v1/product" + rest, "PUT")
    ensures !ShouldSkipFilter("/v1/product" + rest, "PATCH")
    ensures !ShouldSkipFilter("/v1/product" + rest, "DELETE")
  {
    assert ("/v1/product" + rest)[1] == 'v' && ("/v1/product" + rest)[4] == 'p';
    var u := "/v1/user/" + id;
    assert u[1] == 'v' && |u| >= 9;
    assert "/v1/user/verify" == "/v1/user/" + "verify";
    PrefixCancels("/v1/user/", id, "verify");
  }

  /**
   * The block rule on a path the filter does not skip: an authenticated,
   * non-anonymous principal whose account exists and is not verified.
   */
  predicate Blocks(users: map<nat, UserRow>, path: string, verb: string, auth: Option<Auth>)
    requires UsernamesUnique(users)
  {
    && !ShouldSkipFilter(path, verb)
    && auth.Some? && auth.value.authenticated && auth.value.name != AnonymousUserName
    && HasUsername(users, auth.value.name)
    && !users[UserIdByName(users, auth.value.name)].emailVerified
  }

  /** A request passes exactly when it is skipped, or its principal is absent, unauthenticated, anonymous, unknown or verified. */
  lemma PassesExactly(users: map<nat, UserRow>, path: string, verb: string, auth: Option<Auth>)
    requires UsernamesUnique(users)
    ensures !Blocks(users, path, verb, auth) <==>
      || ShouldSkipFilter(path, verb)
      || auth.None? || !auth.value.authenticated || auth.value.name == AnonymousUserName
      || !(exists id :: id in users && users[id].username == auth.value.name)
      || CallerVerified(users, auth)
  {
  }

  /** Only callers the controllers would also refuse as unverified are blocked: the filter never stops a verified caller. */
  lemma BlockedCallersAreUnverified(users: map<nat, UserRow>, path: string, verb: string, auth: Option<Auth>)
    requires UsernamesUnique(users)
    requires Blocks(users, path, verb, auth)
    ensures !CallerVerified(users, auth)
  {
  }

  /** The servlet response the filter may write. */
  class HttpServletResponse {
    var status: int
    var contentType: Option<string>
    var body: string

    constructor ()
      ensures status == 200 && contentType == None && body == ""
    {
      status := 200;
      contentType := None;
      body := "";
    }
  }

  class EmailVerificationFilter {
    const userService: UserService

    constructor (userService: UserService)
      ensures this.userService == userService
    {
      this.userService := userService;
    }

    /**
     * doFilterInternal: either writes 403, application/json and the error
     * body and ends the request, or leaves the response alone and continues
     * the chain.
     */
    method DoFilterInternal(path: string, verb: string, auth: Option<Auth>, response: HttpServletResponse)
      returns (continued: bool)
      modifies response
      requires userService.users.Valid()
      ensures continued <==> !Blocks(userService.users.rows, path, verb, auth)
      ensures continued ==> unchanged(response)
      ensures !continued ==>
        response.status == 403 && response.contentType == Some("application/json") && response.body == NotVerifiedBody
    {
      if ShouldSkipFilter(path, verb) {
        return true;
      }
      if auth.Some? && auth.value.authenticated && auth.value.name != AnonymousUserName {
        var user := userService.users.FindByUsername(auth.value.name);
        if user != null && !user.emailVerified {
          response.status := 403;
          response.contentType := Some("application/json");
          response.body := NotVerifiedBody;
          return false;
        }
      }
      return true;
    }
  }
}
