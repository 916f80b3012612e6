/**
 * HealthController: the /healthz probe. The request is validated first
 * (method, then query string, then body); only a valid request reaches the
 * database check, whose result is an input here. Every response carries
 * the same no-cache headers, and a 405 also carries Allow: GET.
 */
module HealthControllers {
  import opened Common

  /** What the handler reads of the request: method, raw query string, declared content length (-1 when unknown) and Transfer-Encoding. */
  datatype HealthRequest = HealthRequest(verb: string, query: Option<string>, contentLength: int, transferEncoding: Option<string>)

  /** performHealthCheck: true, false, or an exception. */
  datatype HealthResult = Healthy | Unhealthy | Threw

  type Header = (string, string)

  datatype Response = Response(status: Status, headers: seq<Header>)

  const CacheControl: Header := ("Cache-Control", "no-cache, no-store, must-revalidate")
  const Pragma: Header := ("Pragma", "no-cache")
  const NoSniff: Header := ("X-Content-Type-Options", "nosniff")
  const AllowGet: Header := ("Allow", "GET")

  /** The value of one header, if it has that name. */
  function ValueIfNamed(header: Header, name: string): seq<string>
  {
    if header.0 == name then [header.1] else []
  }

  /** The values of the headers with that name, in order. */
  function HeaderValues(headers: seq<Header>, name: string): (r: seq<string>)
    ensures |r| <= |headers|
    ensures forall v :: v in r <==> exists i :: 0 <= i < |headers| && headers[i] == (name, v)
  {
    if |headers| == 0 then []
    else
      var rest := HeaderValues(headers[1..], name);
      assert forall i :: 1 <= i < |headers| ==> headers[i] == headers[1..][i - 1];
      assert forall v :: (exists i :: 0 <= i < |headers[1..]| && headers[1..][i] == (name, v)) ==>
                         (exists i :: 0 <= i < |headers| && headers[i] == (name, v)) by {
        forall v | exists i :: 0 <= i < |headers[1..]| && headers[1..][i] == (name, v)
          ensures exists i :: 0 <= i < |headers| && headers[i] == (name, v)
        {
          var i :| 0 <= i < |headers[1..]| && headers[1..][i] == (name, v);
          assert headers[i + 1] == (name, v);
        }
      }
      ValueIfNamed(headers[0], name) + rest
  }

  /** buildResponse: the three fixed headers, and Allow: GET only for 405. */
  function BuildResponse(status: Status): (r: Response)
    ensures r.status == status
  {
    Response(status, [CacheControl, Pragma, NoSniff] + ExtraHeaders(status))
  }

  /** The headers buildResponse adds after the fixed three. */
  function ExtraHeaders(status: Status): seq<Header>
  {
    if status == MethodNotAllowed then [AllowGet] else []
  }

  /** Looking a name up in a built response: the three fixed headers, then the extra one. */
  lemma LookupInResponse(status: Status, name: string)
    ensures HeaderValues(BuildResponse(status).headers, name)
         == ValueIfNamed(CacheControl, name) + ValueIfNamed(Pragma, name) + ValueIfNamed(NoSniff, name)
            + HeaderValues(ExtraHeaders(status), name)
  {
    var extra := ExtraHeaders(status);
    var h := BuildResponse(status).headers;
    assert h == [CacheControl] + ([Pragma] + ([NoSniff] + extra));
    HeaderValuesCons(CacheControl, [Pragma] + ([NoSniff] + extra), name);
    HeaderValuesCons(Pragma, [NoSniff] + extra, name);
    HeaderValuesCons(NoSniff, extra, name);
  }

  /** One unfolding of HeaderValues. */
  lemma HeaderValuesCons(header: Header, rest: seq<Header>, name: string)
    ensures HeaderValues([header] + rest, name) == ValueIfNamed(header, name) + HeaderValues(rest, name)
  {
    assert ([header] + rest)[1..] == rest;
  }

  lemma LookupInExtra(status: Status, name: string)
    ensures HeaderValues(ExtraHeaders(status), name) == if status == MethodNotAllowed && name == "Allow" then ["GET"] else []
  {
    if status == MethodNotAllowed {
      assert HeaderValues([AllowGet], name) == ValueIfNamed(AllowGet, name) + HeaderValues([], name);
    }
  }

  /** The four header names differ, already in length. */
  lemma HeaderNamesDistinct()
    ensures CacheControl.0 != Pragma.0 && CacheControl.0 != NoSniff.0 && CacheControl.0 != AllowGet.0
    ensures Pragma.0 != NoSniff.0 && Pragma.0 != AllowGet.0 && NoSniff.0 != AllowGet.0
  {
    assert |CacheControl.0| == 13 && |Pragma.0| == 6 && |NoSniff.0| == 22 && |AllowGet.0| == 5;
  }

  /** Every response carries each of the three fixed headers exactly once: no caching and no sniffing. */
  lemma FixedHeaderOnce(status: Status, header: Header)
    requires header == CacheControl || header == Pragma || header == NoSniff
    ensures HeaderValues(BuildResponse(status).headers, header.0) == [header.1]
  {
    HeaderNamesDistinct();
    LookupInResponse(status, header.0);
    LookupInExtra(status, header.0);
  }

  /** Allow is present exactly on 405, and then says GET. */
  lemma AllowOnlyOnMethodNotAllowed(status: Status)
    ensures HeaderValues(BuildResponse(status).headers, "Allow") == if status == MethodNotAllowed then ["GET"] else []
  {
    HeaderNamesDistinct();
    LookupInResponse(status, "Allow");
    LookupInExtra(status, "Allow");
  }

  /** The request passes validation: GET, no query string, no declared body and no chunked body. */
  predicate PassesValidation(req: HealthRequest)
  {
    req.verb == "GET" && req.query.None? && req.contentLength <= 0 && req.transferEncoding.None?
  }

  /** handleHealthCheck. */
  function HandleHealthCheck(req: HealthRequest, health: HealthResult): (r: Response)
    ensures r == BuildResponse(r.status)
    ensures r.status == MethodNotAllowed <==> req.verb != "GET"
    ensures r.status == BadRequest <==> req.verb == "GET" && !PassesValidation(req)
    ensures r.status == Ok <==> PassesValidation(req) && health == Healthy
    ensures r.status == ServiceUnavailable <==> PassesValidation(req) && health != Healthy
  {
    if req.verb != "GET" then BuildResponse(MethodNotAllowed)
    else if req.query.Some? then BuildResponse(BadRequest)
    else if req.contentLength > 0 || req.transferEncoding.Some? then BuildResponse(BadRequest)
    else if health == Healthy then BuildResponse(Ok)
    else BuildResponse(ServiceUnavailable)
  }

  /** The database is consulted only for a valid request: otherwise the answer does not depend on it. */
  lemma ValidationPrecedesProbe(req: HealthRequest, h1: HealthResult, h2: HealthResult)
    requires !PassesValidation(req)
    ensures HandleHealthCheck(req, h1) == HandleHealthCheck(req, h2)
  {
  }

  /** The method is checked first: a POST with a query string and a body is still 405, with Allow: GET. */
  lemma MethodCheckedFirst(query: string, length: int, health: HealthResult)
    ensures HandleHealthCheck(HealthRequest("POST", Some(query), length, Some("chunked")), health).status == MethodNotAllowed
    ensures HeaderValues(HandleHealthCheck(HealthRequest("POST", Some(query), length, Some("chunked")), health).headers, "Allow") == ["GET"]
  {
    AllowOnlyOnMethodNotAllowed(MethodNotAllowed);
  }
}
