/**
 * The three policy helpers of backend/src/middleware/request-logger.ts:
 * the level a finished request is logged at, the correlation and user
 * properties added to each log line, and the health-check filter that
 * switches request logging off.
 */
module RequestLogger {
  import opened Wrappers
  import ErrorHandler

  /** The levels `selectLogLevel` names; `Silent` suppresses the line. */
  datatype LogLevel = Error | Warn | Silent | Info

  /**
   * `selectLogLevel`: an error, or a server error status, is logged as an
   * error; the other statuses fall into the bands 400-499, 300-399 and
   * below 300, and every status lands in exactly one of them.
   */
  function SelectLogLevel(hasError: bool, status: int): (l: LogLevel)
    ensures hasError ==> l == Error
    ensures l == Error <==> hasError || status >= 500
    ensures l == Warn <==> !hasError && 400 <= status < 500
    ensures l == Silent <==> !hasError && 300 <= status < 400
    ensures l == Info <==> !hasError && status < 300
  {
    if hasError || status >= 500 then Error
    else if status >= 400 then Warn
    else if status >= 300 then Silent
    else Info
  }

  /** For an answer the error handler sent, without an error object, both middlewares pick the same severity. */
  lemma LevelsAgreeOnErrorStatuses(status: int)
    requires status >= 400
    ensures SelectLogLevel(false, status) == Error <==> ErrorHandler.SeverityOf(status) == ErrorHandler.ErrorLevel
    ensures SelectLogLevel(false, status) == Warn <==> ErrorHandler.SeverityOf(status) == ErrorHandler.WarnLevel
  {
  }

  /** The request headers, by lower-case name. */
  type Headers = map<string, string>

  /** `headers[name] || fallback` on string headers: the header when it is present and not empty. */
  function HeaderOr(headers: Headers, name: string, fallback: Option<string>): (v: Option<string>)
    ensures name in headers && headers[name] != "" ==> v == Some(headers[name])
    ensures !(name in headers && headers[name] != "") ==> v == fallback
  {
    if name in headers && headers[name] != "" then Some(headers[name]) else fallback
  }

  /** The custom properties of a request's log line. */
  datatype RequestContext = RequestContext(correlation: Option<string>, user: string)

  const AnonymousUser := "anonymous"

  function Lookup(headers: Headers, name: string): Option<string> {
    if name in headers then Some(headers[name]) else None
  }

  /**
   * `addRequestContext`: the correlation id falls back to the request id,
   * which may itself be missing; the user falls back to "anonymous".
   */
  function AddRequestContext(headers: Headers): (c: RequestContext)
    ensures c.correlation == (if Lookup(headers, "x-correlation-id") !in {None, Some("")}
                              then Lookup(headers, "x-correlation-id")
                              else Lookup(headers, "x-request-id"))
    ensures Lookup(headers, "x-user-id") !in {None, Some("")} ==> c.user == headers["x-user-id"]
    ensures c.user != ""
    ensures c.correlation.None? <==> Lookup(headers, "x-correlation-id") in {None, Some("")} && "x-request-id" !in headers
    ensures c.user == AnonymousUser <==> Lookup(headers, "x-user-id") in {None, Some(""), Some(AnonymousUser)}
  {
    RequestContext(
      HeaderOr(headers, "x-correlation-id", Lookup(headers, "x-request-id")),
      HeaderOr(headers, "x-user-id", Some(AnonymousUser)).GetOr(AnonymousUser))
  }

  /** A truthy correlation id wins over the request id. */
  lemma CorrelationIdPreferred(headers: Headers)
    requires "x-correlation-id" in headers && headers["x-correlation-id"] != ""
    ensures AddRequestContext(headers).correlation == Some(headers["x-correlation-id"])
  {
  }

  /** The three headers `addRequestContext` reads. */
  const ContextHeaders: set<string> := {"x-correlation-id", "x-request-id", "x-user-id"}

  /**
   * The properties come from the headers: the correlation is one of the two
   * id headers or missing, and the user is the user id header or "anonymous".
   */
  lemma ContextComesFromHeaders(headers: Headers)
    ensures var c := AddRequestContext(headers);
      c.correlation in {None, Lookup(headers, "x-correlation-id"), Lookup(headers, "x-request-id")}
    ensures var c := AddRequestContext(headers);
      c.user == AnonymousUser || Lookup(headers, "x-user-id") == Some(c.user)
  {
  }

  /** No header other than the three it reads changes the properties. */
  lemma OtherHeadersIgnored(headers: Headers, name: string, value: string)
    requires name !in ContextHeaders
    ensures AddRequestContext(headers[name := value]) == AddRequestContext(headers)
  {
    var h := headers[name := value];
    assert Lookup(h, "x-correlation-id") == Lookup(headers, "x-correlation-id");
    assert Lookup(h, "x-request-id") == Lookup(headers, "x-request-id");
    assert Lookup(h, "x-user-id") == Lookup(headers, "x-user-id");
  }

  /** `p` occurs in `s` starting at index `i`. */
  predicate OccursAt(s: string, p: string, i: nat) {
    i + |p| <= |s| && s[i..i + |p|] == p
  }

  /** `s.includes(p)`, computed by trying each start position in turn. */
  function Includes(s: string, p: string): (b: bool)
    ensures b ==> |p| <= |s|
    ensures p == [] || (|p| <= |s| && s[..|p|] == p) ==> b
  {
    if |p| <= |s| && s[..|p|] == p then true
    else if s == [] then false
    else Includes(s[1..], p)
  }

  /** `Includes` finds exactly the occurrences. */
  lemma {:induction false} IncludesExactly(s: string, p: string)
    ensures Includes(s, p) <==> exists i: nat :: OccursAt(s, p, i)
  {
    if |p| <= |s| && s[..|p|] == p {
      assert OccursAt(s, p, 0);
    } else if s != [] {
      IncludesExactly(s[1..], p);
      if exists i: nat :: OccursAt(s, p, i) {
        var i: nat :| OccursAt(s, p, i);
        assert i != 0;
        assert s[1..][i - 1..i - 1 + |p|] == s[i..i + |p|];
        assert OccursAt(s[1..], p, i - 1);
      }
      if exists j: nat :: OccursAt(s[1..], p, j) {
        var j: nat :| OccursAt(s[1..], p, j);
        assert s[1..][j..j + |p|] == s[j + 1..j + 1 + |p|];
        assert OccursAt(s, p, j + 1);
      }
    }
  }

  const HealthPath := "/health"
  const StatusPath := "/status"

  /**
   * `isHealthEndpoint`: the URL (empty when missing) mentions "/health" or
   * "/status" anywhere.
   */
  function IsHealthEndpoint(url: Option<string>): (b: bool)
    ensures b <==> exists i: nat :: OccursAt(url.GetOr(""), HealthPath, i) || OccursAt(url.GetOr(""), StatusPath, i)
  {
    var u := url.GetOr("");
    IncludesExactly(u, HealthPath);
    IncludesExactly(u, StatusPath);
    Includes(u, HealthPath) || Includes(u, StatusPath)
  }

  /** A request without a URL is logged. */
  lemma MissingUrlIsLogged()
    ensures !IsHealthEndpoint(None)
  {
    assert !OccursAt("", HealthPath, 0);
  }

  /** Any URL with "/health" or "/status" in it is a health endpoint, wherever it occurs. */
  lemma HealthPathsAreSkipped(before: string, after: string)
    ensures IsHealthEndpoint(Some(before + HealthPath + after))
    ensures IsHealthEndpoint(Some(before + StatusPath + after))
  {
    var h := before + HealthPath + after;
    assert h[|before|..|before| + |HealthPath|] == HealthPath;
    assert OccursAt(h, HealthPath, |before|);
    var s := before + StatusPath + after;
    assert s[|before|..|before| + |StatusPath|] == StatusPath;
    assert OccursAt(s, StatusPath, |before|);
  }
}
