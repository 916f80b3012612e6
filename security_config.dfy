/**
 * SecurityConfig: the authorisation rules of the filter chain, tried in
 * order, the first rule whose method and path patterns match deciding the
 * request. Authentication is HTTP Basic, so a refused anonymous request is
 * answered 401 with a challenge and a refused authenticated one 403.
 */
module SecurityConfiguration {
  import opened Common

  /** A request matcher's path pattern; `*` matches one path segment (any characters but '/'). */
  datatype PathPattern =
    | Exact(path: string)
    | OneSegmentUnder(prefix: string)
    | AnyPath

  predicate PatternMatches(pattern: PathPattern, path: string)
  {
    match pattern
    case Exact(p) => path == p
    case OneSegmentUnder(prefix) => StartsWith(path, prefix) && '/' !in path[|prefix|..]
    case AnyPath => true
  }

  /** What a rule grants. */
  datatype Access = PermitAll | Authenticated | DenyAll

  /** requestMatchers([method,] patterns...).access; a rule without a method matches every method. */
  datatype Rule = Rule(verb: Option<string>, patterns: seq<PathPattern>, access: Access)

  predicate RuleMatches(rule: Rule, verb: string, path: string)
  {
    (rule.verb.None? || rule.verb.value == verb) && exists k :: 0 <= k < |rule.patterns| && PatternMatches(rule.patterns[k], path)
  }

  /** The rules of filterChain, in declaration order. */
  const Rules: seq<Rule> := [
    Rule(None, [Exact("/healthz"), Exact("/healthz/")], PermitAll),
    Rule(Some("POST"), [Exact("/v1/user")], PermitAll),
    Rule(Some("GET"), [OneSegmentUnder("/v1/product/")], PermitAll),
    Rule(None, [OneSegmentUnder("/v1/user/")], Authenticated),
    Rule(None, [Exact("/v1/product"), OneSegmentUnder("/v1/product/")], Authenticated),
    Rule(None, [AnyPath], DenyAll)
  ]

  /** The access of the first matching rule, if any rule matches. */
  function FirstMatch(rules: seq<Rule>, verb: string, path: string): (r: Option<Access>)
    ensures r.None? <==> forall i :: 0 <= i < |rules| ==> !RuleMatches(rules[i], verb, path)
    ensures r.Some? ==> exists i :: 0 <= i < |rules| && RuleMatches(rules[i], verb, path) && rules[i].access == r.value
                                    && forall j :: 0 <= j < i ==> !RuleMatches(rules[j], verb, path)
  {
    if |rules| == 0 then None
    else if RuleMatches(rules[0], verb, path) then Some(rules[0].access)
    else
      var r := FirstMatch(rules[1..], verb, path);
      assert forall i :: 1 <= i < |rules| ==> rules[i] == rules[1..][i - 1];
      if r.Some? then
        var i :| 0 <= i < |rules[1..]| && RuleMatches(rules[1..][i], verb, path) && rules[1..][i].access == r.value
                 && forall j :: 0 <= j < i ==> !RuleMatches(rules[1..][j], verb, path);
        assert forall j :: 0 <= j < i + 1 ==> !RuleMatches(rules[j], verb, path) by {
          forall j | 0 <= j < i + 1 ensures !RuleMatches(rules[j], verb, path) {
            if j > 0 { assert rules[j] == rules[1..][j - 1]; }
          }
        }
        r
      else r
  }

  /** The outcome of authorisation. */
  datatype Decision = Allow | Challenge | Forbid
  {
    /** The status a refused request is answered with (Allow proceeds to the handler). */
    function Code(): int
    {
      match this
      case Allow => 200
      case Challenge => 401
      case Forbid => 403
    }
  }

  /** The first matching rule decides; the last rule matches every request. */
  function Authorize(verb: string, path: string, authenticated: bool): (d: Decision)
    ensures d == Forbid ==> authenticated
    ensures !authenticated ==> d != Forbid
  {
    var access := FirstMatch(Rules, verb, path).GetOr(DenyAll);
    match access
    case PermitAll => Allow
    case Authenticated => if authenticated then Allow else Challenge
    case DenyAll => if authenticated then Forbid else Challenge
  }

  /** One step of the first-match search. */
  lemma FirstMatchStep(rules: seq<Rule>, verb: string, path: string)
    requires |rules| > 0
    ensures FirstMatch(rules, verb, path)
         == if RuleMatches(rules[0], verb, path) then Some(rules[0].access) else FirstMatch(rules[1..], verb, path)
  {
  }

  /** A rule with one pattern matches when its method and that pattern do. */
  lemma OnePattern(rule: Rule, verb: string, path: string)
    requires |rule.patterns| == 1
    ensures RuleMatches(rule, verb, path) <==> (rule.verb.None? || rule.verb.value == verb) && PatternMatches(rule.patterns[0], path)
  {
    if PatternMatches(rule.patterns[0], path) {
      assert exists k :: 0 <= k < |rule.patterns| && PatternMatches(rule.patterns[k], path);
    }
  }

  /** A rule with two patterns matches when its method and either pattern do. */
  lemma TwoPatterns(rule: Rule, verb: string, path: string)
    requires |rule.patterns| == 2
    ensures RuleMatches(rule, verb, path) <==>
      (rule.verb.None? || rule.verb.value == verb) && (PatternMatches(rule.patterns[0], path) || PatternMatches(rule.patterns[1], path))
  {
    if PatternMatches(rule.patterns[0], path) {
      assert exists k :: 0 <= k < |rule.patterns| && PatternMatches(rule.patterns[k], path);
    }
    if PatternMatches(rule.patterns[1], path) {
      assert exists k :: 0 <= k < |rule.patterns| && PatternMatches(rule.patterns[k], path);
    }
  }

  /** What each rule of the table matches, stated on the method and the path. */
  lemma RulesMatch(verb: string, path: string)
    ensures RuleMatches(Rules[0], verb, path) <==> path == "/healthz" || path == "/healthz/"
    ensures RuleMatches(Rules[1], verb, path) <==> verb == "POST" && path == "/v1/user"
    ensures RuleMatches(Rules[2], verb, path) <==> verb == "GET" && PatternMatches(OneSegmentUnder("/v1/product/"), path)
    ensures RuleMatches(Rules[3], verb, path) <==> PatternMatches(OneSegmentUnder("/v1/user/"), path)
    ensures RuleMatches(Rules[4], verb, path) <==> path == "/v1/product" || PatternMatches(OneSegmentUnder("/v1/product/"), path)
    ensures RuleMatches(Rules[5], verb, path)
  {
    TwoPatterns(Rules[0], verb, path);
    OnePattern(Rules[1], verb, path);
    OnePattern(Rules[2], verb, path);
    OnePattern(Rules[3], verb, path);
    TwoPatterns(Rules[4], verb, path);
    OnePattern(Rules[5], verb, path);
  }

  /**
   * The whole table as one decision: the first matching rule's access, read
   * off in declaration order; the last rule matches every request, so the
   * search always finds one.
   */
  lemma DecisionTable(verb: string, path: string)
    ensures FirstMatch(Rules, verb, path) ==
      if path == "/healthz" || path == "/healthz/" then Some(PermitAll)
      else if verb == "POST" && path == "/v1/user" then Some(PermitAll)
      else if verb == "GET" && PatternMatches(OneSegmentUnder("/v1/product/"), path) then Some(PermitAll)
      else if PatternMatches(OneSegmentUnder("/v1/user/"), path) then Some(Authenticated)
      else if path == "/v1/product" || PatternMatches(OneSegmentUnder("/v1/product/"), path) then Some(Authenticated)
      else Some(DenyAll)
  {
    RulesMatch(verb, path);
    FirstMatchStep(Rules, verb, path);
    assert Rules[1..][0] == Rules[1];
    FirstMatchStep(Rules[1..], verb, path);
    assert Rules[1..][1..] == Rules[2..] && Rules[2..][0] == Rules[2];
    FirstMatchStep(Rules[2..], verb, path);
    assert Rules[2..][1..] == Rules[3..] && Rules[3..][0] == Rules[3];
    FirstMatchStep(Rules[3..], verb, path);
    assert Rules[3..][1..] == Rules[4..] && Rules[4..][0] == Rules[4];
    FirstMatchStep(Rules[4..], verb, path);
    assert Rules[4..][1..] == Rules[5..] && Rules[5..][0] == Rules[5];
    FirstMatchStep(Rules[5..], verb, path);
  }

  /** Authorize on a request whose first matching rule is known. */
  lemma Decides(verb: string, path: string, access: Access)
    requires FirstMatch(Rules, verb, path) == Some(access)
    ensures Authorize(verb, path, false) == if access == PermitAll then Allow else Challenge
    ensures Authorize(verb, path, true) == if access == DenyAll then Forbid else Allow
  {
  }

  /** Every request matches some rule, so the default of Authorize is never used. */
  lemma EveryRequestMatches(verb: string, path: string)
    ensures FirstMatch(Rules, verb, path).Some?
  {
    DecisionTable(verb, path);
  }

  /** The health probe is open to everyone, for every method. */
  lemma HealthProbeIsPublic(verb: string, authenticated: bool)
    ensures Authorize(verb, "/healthz", authenticated) == Allow
    ensures Authorize(verb, "/healthz/", authenticated) == Allow
  {
    DecisionTable(verb, "/healthz");
    DecisionTable(verb, "/healthz/");
  }

  /** Where a path /v1/product/{id} falls in the table. */
  lemma ProductPath(id: string)
    requires '/' !in id
    ensures var p := "/v1/product/" + id;
      && p != "/healthz" && p != "/healthz/" && p != "/v1/user" && p != "/v1/product"
      && PatternMatches(OneSegmentUnder("/v1/product/"), p)
      && !PatternMatches(OneSegmentUnder("/v1/user/"), p)
  {
    var p := "/v1/product/" + id;
    assert p[..12] == "/v1/product/" && p[12..] == id;
    assert p[1] == 'v' && p[4] == 'p' && |p| >= 12;
  }

  /** Where a path /v1/user/{segment} falls in the table. */
  lemma UserPath(segment: string)
    requires '/' !in segment
    ensures var p := "/v1/user/" + segment;
      && p != "/healthz" && p != "/healthz/" && p != "/v1/user" && p != "/v1/product"
      && !PatternMatches(OneSegmentUnder("/v1/product/"), p)
      && PatternMatches(OneSegmentUnder("/v1/user/"), p)
  {
    var p := "/v1/user/" + segment;
    assert p[..9] == "/v1/user/" && p[9..] == segment;
    assert p[1] == 'v' && p[4] == 'u' && |p| >= 9;
  }

  /** Where a path /v1/product/{pid}/image... falls in the table: under no rule but the last. */
  lemma ImagePath(pid: string, rest: string)
    requires '/' !in pid
    ensures var p := "/v1/product/" + pid + "/image" + rest;
      && p != "/healthz" && p != "/healthz/" && p != "/v1/user" && p != "/v1/product"
      && !PatternMatches(OneSegmentUnder("/v1/product/"), p)
      && !PatternMatches(OneSegmentUnder("/v1/user/"), p)
  {
    var p := "/v1/product/" + pid + "/image" + rest;
    assert p[..12] == "/v1/product/";
    assert p[12..][|pid|] == '/';
    assert '/' in p[12..];
    assert p[1] == 'v' && p[4] == 'p' && |p| > 12;
  }

  /** Registration and reading one product need no credentials; the read is decided by the third rule, not the fifth. */
  lemma PublicEndpoints(id: string, authenticated: bool)
    requires '/' !in id
    ensures Authorize("POST", "/v1/user", authenticated) == Allow
    ensures Authorize("GET", "/v1/product/" + id, authenticated) == Allow
  {
    DecisionTable("POST", "/v1/user");
    Decides("POST", "/v1/user", PermitAll);
    ProductPath(id);
    DecisionTable("GET", "/v1/product/" + id);
    Decides("GET", "/v1/product/" + id, PermitAll);
  }

  /** Account reads and updates, including the verification link, need credentials: anonymous gets 401, a signed-in caller passes. */
  lemma UserEndpointsNeedCredentials(verb: string, segment: string)
    requires '/' !in segment && verb != "POST"
    ensures Authorize(verb, "/v1/user/" + segment, false) == Challenge
    ensures Authorize(verb, "/v1/user/" + segment, true) == Allow
  {
    UserPath(segment);
    DecisionTable(verb, "/v1/user/" + segment);
    Decides(verb, "/v1/user/" + segment, Authenticated);
  }

  /** The verification link, a GET without credentials, is challenged: the table as written does not open it. */
  lemma UserVerifyNeedsCredentials()
    ensures Authorize("GET", "/v1/user/verify", false) == Challenge
  {
    UserEndpointsNeedCredentials("GET", "verify");
    assert "/v1/user/" + "verify" == "/v1/user/verify";
  }

  /** Product writes need credentials. */
  lemma ProductWritesNeedCredentials(verb: string, id: string)
    requires '/' !in id && verb != "GET"
    ensures Authorize(verb, "/v1/product", false) == Challenge
    ensures Authorize(verb, "/v1/product", true) == Allow
    ensures Authorize(verb, "/v1/product/" + id, false) == Challenge
    ensures Authorize(verb, "/v1/product/" + id, true) == Allow
  {
    assert !PatternMatches(OneSegmentUnder("/v1/user/"), "/v1/product") by {
      assert "/v1/product"[4] != "/v1/user/"[4];
    }
    DecisionTable(verb, "/v1/product");
    Decides(verb, "/v1/product", Authenticated);
    ProductPath(id);
    DecisionTable(verb, "/v1/product/" + id);
    Decides(verb, "/v1/product/" + id, Authenticated);
  }

  /** No rule covers the image routes: an upload, listing or deletion is refused for everyone. */
  lemma ImageRoutesAreDenied(verb: string, pid: string, rest: string)
    requires '/' !in pid
    ensures Authorize(verb, "/v1/product/" + pid + "/image" + rest, false) == Challenge
    ensures Authorize(verb, "/v1/product/" + pid + "/image" + rest, true) == Forbid
  {
    ImagePath(pid, rest);
    DecisionTable(verb, "/v1/product/" + pid + "/image" + rest);
    Decides(verb, "/v1/product/" + pid + "/image" + rest, DenyAll);
  }

  /** Anonymous requests pass only for the health probe, registration, and a GET of one path segment under /v1/product/. */
  lemma AnonymousAccessIsNarrow(verb: string, path: string)
    requires Authorize(verb, path, false) == Allow
    ensures || path == "/healthz" || path == "/healthz/"
            || (verb == "POST" && path == "/v1/user")
            || (verb == "GET" && PatternMatches(OneSegmentUnder("/v1/product/"), path))
  {
    DecisionTable(verb, path);
  }
}
