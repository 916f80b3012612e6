/**
 * GlobalExceptionHandler: the status an exception escaping a handler is
 * answered with. Spring picks the handler declared for the closest
 * superclass of the exception, so a data-integrity violation and a JDBC
 * connection failure, both data-access exceptions, reach their own
 * handlers before the general data-access one.
 */
module ExceptionHandling {
  import opened Common

  /** The cause of an InternalAuthenticationServiceException: whether it is a data-access exception, and its message. */
  datatype Cause = Cause(isDataAccess: bool, message: Option<string>)

  /** The data-access exceptions the handler distinguishes. */
  datatype DataAccessKind = IntegrityViolation | CannotGetJdbcConnection | OtherDataAccess

  /** The exceptions the handler is declared for; Unhandled is any other. */
  datatype Failure =
    | MethodArgumentNotValid
    | HttpMessageNotReadable
    | HttpMediaTypeNotSupported
    | BadCredentials
    | AccessDenied
    | InternalAuthenticationService(cause: Option<Cause>)
    | CannotCreateTransaction
    | DataAccess(kind: DataAccessKind)
    | Unhandled

  /** handleAuthenticationServiceException: 503 when the cause points at the database, otherwise 401. */
  function AuthenticationServiceStatus(cause: Option<Cause>): (r: Status)
    ensures r in {ServiceUnavailable, Unauthorized}
    ensures r == ServiceUnavailable <==>
      cause.Some? && (cause.value.isDataAccess || (cause.value.message.Some? && ContainsSubstring(cause.value.message.value, "Connection")))
  {
    if cause.Some? && (cause.value.isDataAccess || (cause.value.message.Some? && ContainsSubstring(cause.value.message.value, "Connection")))
    then ServiceUnavailable
    else Unauthorized
  }

  /** handleDataAccessException on its own: 503 unless the exception is a data-integrity violation. */
  function DataAccessStatus(kind: DataAccessKind): Status
  {
    if kind != IntegrityViolation then ServiceUnavailable else BadRequest
  }

  /** The status of the most specific handler for the failure; None when the advice declares none. */
  function StatusFor(f: Failure): (r: Option<Status>)
    ensures r.None? <==> f.Unhandled?
  {
    match f
    case MethodArgumentNotValid => Some(BadRequest)
    case HttpMessageNotReadable => Some(BadRequest)
    case HttpMediaTypeNotSupported => Some(UnsupportedMediaType)
    case BadCredentials => Some(Unauthorized)
    case AccessDenied => Some(Forbidden)
    case InternalAuthenticationService(cause) => Some(AuthenticationServiceStatus(cause))
    case CannotCreateTransaction => Some(ServiceUnavailable)
    case DataAccess(IntegrityViolation) => Some(BadRequest)
    case DataAccess(CannotGetJdbcConnection) => Some(ServiceUnavailable)
    case DataAccess(OtherDataAccess) => Some(DataAccessStatus(OtherDataAccess))
    case Unhandled => None
  }

  /** Malformed requests are client errors: invalid bodies, unreadable JSON and integrity violations give 400. */
  lemma ClientErrors()
    ensures StatusFor(MethodArgumentNotValid) == Some(BadRequest)
    ensures StatusFor(HttpMessageNotReadable) == Some(BadRequest)
    ensures StatusFor(DataAccess(IntegrityViolation)) == Some(BadRequest)
    ensures StatusFor(HttpMediaTypeNotSupported) == Some(UnsupportedMediaType)
    ensures StatusFor(BadCredentials) == Some(Unauthorized)
    ensures StatusFor(AccessDenied) == Some(Forbidden)
  {
  }

  /** Every database failure other than an integrity violation is answered 503. */
  lemma DatabaseOutagesAreUnavailable(f: Failure)
    requires f.CannotCreateTransaction? || (f.DataAccess? && f.kind != IntegrityViolation)
    ensures StatusFor(f) == Some(ServiceUnavailable)
  {
  }

  /**
   * A sign-in that fails because the database is unreachable is 503, not 401:
   * a data-access cause with any message, or any cause whose message mentions
   * "Connection" anywhere; with no cause at all it is 401.
   */
  lemma AuthenticationOutage(isDataAccess: bool, before: string, after: string, message: Option<string>)
    ensures StatusFor(InternalAuthenticationService(Some(Cause(isDataAccess, Some(before + "Connection" + after))))) == Some(ServiceUnavailable)
    ensures StatusFor(InternalAuthenticationService(Some(Cause(true, message)))) == Some(ServiceUnavailable)
    ensures StatusFor(InternalAuthenticationService(None)) == Some(Unauthorized)
  {
    var m := before + "Connection" + after;
    assert m[|before|..|before| + |"Connection"|] == "Connection";
    assert OccursAt(m, "Connection", |before|);
  }

  /** The message test is case-sensitive: a lower-case "connection" in a non-database cause is still 401. */
  lemma ConnectionMatchIsCaseSensitive()
    ensures StatusFor(InternalAuthenticationService(Some(Cause(false, Some("connection refused"))))) == Some(Unauthorized)
  {
    var m := "connection refused";
    forall i | 0 <= i && i + |"Connection"| <= |m|
      ensures !OccursAt(m, "Connection", i)
    {
      assert m[i..i + |"Connection"|][0] == m[i] != 'C';
    }
  }

  /** The resolution order does not matter for data-access exceptions: each gets what the general handler alone would give. */
  lemma DataAccessResolutionAgrees(kind: DataAccessKind)
    ensures StatusFor(DataAccess(kind)) == Some(DataAccessStatus(kind))
  {
  }

  /** The failures that mean the database cannot be reached (or answered a sign-in lookup with a connection error). */
  predicate DatabaseUnreachable(f: Failure)
  {
    || f.CannotCreateTransaction?
    || (f.DataAccess? && f.kind != IntegrityViolation)
    || (f.InternalAuthenticationService? && f.cause.Some? &&
        (f.cause.value.isDataAccess || (f.cause.value.message.Some? && ContainsSubstring(f.cause.value.message.value, "Connection"))))
  }

  /**
   * Every failure the advice handles is answered with an error that is never
   * the generic 500: 503 exactly when the database is unreachable, and a
   * client error (4xx) otherwise. Only exceptions outside the advice fall
   * through to the container's default.
   */
  lemma HandledStatusesAreErrors(f: Failure)
    requires !f.Unhandled?
    ensures StatusFor(f).value != InternalServerError
    ensures StatusFor(f) == Some(ServiceUnavailable) <==> DatabaseUnreachable(f)
    ensures !DatabaseUnreachable(f) ==> 400 <= StatusFor(f).value.Code() < 500
  {
  }
}
