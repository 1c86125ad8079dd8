/**
 * The error middleware of backend/src/middleware/error-handler.ts: the 404
 * synthesiser and the central handler, which extracts the details of an
 * error (by the type guards, in order), logs them at a severity chosen by
 * the status, and answers with the status and a JSON error body.
 *
 * Logging and the response object are replaced by the values they would be
 * given: the handler returns an `Outcome` holding the status sent, the body
 * sent, the severity logged and the log context.
 */
module ErrorHandler {
  import opened Wrappers
  import opened ErrorTypes

  /** The parts of an Express request the middleware reads. */
  datatype Request = Request(httpMethod: string, originalUrl: string, ip: Option<string>)

  const NotFoundPrefix := "Resource not found: "
  const DefaultMessage := "Internal Server Error"

  /**
   * `notFoundHandler`: the one error it forwards, as `createHttpError(404, …)`
   * builds it. The stack trace is whatever the runtime records.
   */
  function NotFound(req: Request, stack: Option<string>): (e: ErrorValue)
    ensures IsHttpError(e) && e.statusCode.Read() == Some(404)
    ensures e.code.Absent? && e.data.Absent?
  {
    ErrorValue(NotFoundPrefix + req.httpMethod + " " + req.originalUrl, stack, Defined(404), Absent, Absent)
  }

  /** What `extractErrorDetails` returns; None is a property that is `undefined`. */
  datatype Details = Details(
    statusCode: Option<int>,
    message: string,
    code: Option<string>,
    data: Option<JsValue>,
    stack: Option<string>)

  /** `err.statusCode || 500`: `undefined` and 0 are falsy. */
  function StatusOr500(s: Slot<int>): (code: int)
    ensures code != 0
    ensures s.Defined? && s.value != 0 ==> code == s.value
    ensures !(s.Defined? && s.value != 0) ==> code == 500
  {
    if s.Defined? && s.value != 0 then s.value else 500
  }

  /**
   * `extractErrorDetails`: an HTTP error keeps its status, message and
   * stack; an application error that is not an HTTP error gets `|| 500`
   * and keeps its code and data; any other error gets 500 and a non-empty
   * message.
   */
  function ExtractErrorDetails(e: ErrorValue): (d: Details)
    ensures d.stack == e.stack
    ensures d.message == e.message || (e.message == "" && d.message == DefaultMessage)
    ensures IsAppError(e) ==> d.message == e.message
    ensures IsHttpError(e) ==> d.statusCode == e.statusCode.Read()
    ensures IsAppError(e) && !IsHttpError(e) ==> d.code == e.code.Read() && d.data == e.data.Read() && d.statusCode == Some(500)
    ensures d.code.Some? || d.data.Some? ==> IsAppError(e) && !IsHttpError(e)
    ensures d.statusCode.None? <==> e.statusCode.Undefined?
  {
    if IsHttpError(e) then
      Details(e.statusCode.Read(), e.message, None, None, e.stack)
    else if IsAppError(e) then
      Details(Some(StatusOr500(e.statusCode)), e.message, e.code.Read(), e.data.Read(), e.stack)
    else
      Details(Some(500), if e.message == "" then DefaultMessage else e.message, None, None, e.stack)
  }

  /** The three severities of `logErrorWithSeverity`. */
  datatype Severity = ErrorLevel | WarnLevel | InfoLevel

  /** `logErrorWithSeverity`: server errors, client errors, and everything below 400. */
  function SeverityOf(statusCode: int): (s: Severity)
    ensures s == ErrorLevel <==> statusCode >= 500
    ensures s == WarnLevel <==> 400 <= statusCode < 500
    ensures s == InfoLevel <==> statusCode < 400
  {
    if statusCode >= 500 then ErrorLevel
    else if statusCode >= 400 then WarnLevel
    else InfoLevel
  }

  /** The structured log context; None on `errorCode`/`errorData` means the key is not there. */
  datatype LogContext = LogContext(
    statusCode: int,
    errorMessage: string,
    path: string,
    ip: Option<string>,
    errorStack: Option<string>,
    errorCode: Option<JsValue>,
    errorData: Option<JsValue>)

  /**
   * The object literal `errorHandler` hands to `buildErrorContext`, by key.
   * Its shorthand properties are named `errorCode` and `errorData`. A key
   * whose value is `undefined` is left out, which changes no read.
   */
  function ContextArgument(statusCode: int, d: Details): (arg: map<string, JsValue>)
    ensures "code" !in arg && "data" !in arg
    ensures "errorCode" in arg <==> d.code.Some?
    ensures "errorData" in arg <==> d.data.Some?
  {
    map["statusCode" := JsNumber(statusCode), "message" := JsString(d.message)]
    + (if d.code.Some? then map["errorCode" := JsString(d.code.value)] else map[])
    + (if d.data.Some? then map["errorData" := d.data.value] else map[])
    + (if d.stack.Some? then map["stack" := JsString(d.stack.value)] else map[])
  }

  /** A conditional spread `...(obj[key] ? {…: obj[key]} : {})`: the value, when it is truthy. */
  function TruthyEntry(obj: map<string, JsValue>, key: string): (v: Option<JsValue>)
    ensures v.Some? <==> key in obj && Truthy(obj[key])
    ensures v.Some? ==> v.value == obj[key]
  {
    if key in obj && Truthy(obj[key]) then Some(obj[key]) else None
  }

  function RequestPath(req: Request): string {
    req.httpMethod + " " + req.originalUrl
  }

  /**
   * `buildErrorContext` as written: the conditional spreads read the keys
   * `code` and `data`, which the argument it is given does not have.
   */
  function BuildErrorContextAsWritten(req: Request, statusCode: int, d: Details): (c: LogContext)
    ensures c.statusCode == statusCode && c.errorMessage == d.message && c.errorStack == d.stack
    ensures c.path == RequestPath(req) && c.ip == req.ip
    ensures c.errorCode == None && c.errorData == None
  {
    var arg := ContextArgument(statusCode, d);
    LogContext(statusCode, d.message, RequestPath(req), req.ip, d.stack, TruthyEntry(arg, "code"), TruthyEntry(arg, "data"))
  }

  /** As written, the log context never carries an error code or error data, whatever the error. */
  lemma ContextAsWrittenDropsCodeAndData(req: Request, statusCode: int, d: Details)
    ensures BuildErrorContextAsWritten(req, statusCode, d).errorCode == None
    ensures BuildErrorContextAsWritten(req, statusCode, d).errorData == None
  {
  }

  /**
   * `buildErrorContext` reading the keys it is given: the context gains
   * `errorCode` and `errorData` exactly when those values are truthy.
   */
  function BuildErrorContext(req: Request, statusCode: int, d: Details): (c: LogContext)
    ensures c.statusCode == statusCode && c.errorMessage == d.message && c.errorStack == d.stack
    ensures c.errorCode.Some? <==> d.code.Some? && d.code.value != ""
    ensures c.errorCode.Some? ==> c.errorCode.value == JsString(d.code.value)
    ensures c.errorData.Some? <==> d.data.Some? && Truthy(d.data.value)
    ensures c.errorData.Some? ==> c.errorData == d.data
  {
    var arg := ContextArgument(statusCode, d);
    LogContext(statusCode, d.message, RequestPath(req), req.ip, d.stack, TruthyEntry(arg, "errorCode"), TruthyEntry(arg, "errorData"))
  }

  /** The JSON error body; None on an optional field means it is `undefined` and not serialised. */
  datatype ErrorResponse = ErrorResponse(
    message: string,
    statusCode: int,
    code: Option<string>,
    data: Option<JsValue>,
    stack: Option<string>)

  /** `buildErrorResponse`: every extracted field, the stack trace always included. */
  function BuildErrorResponse(statusCode: int, d: Details): (r: ErrorResponse)
    ensures r.statusCode == statusCode && r.message == d.message
    ensures r.code == d.code && r.data == d.data
    ensures r.stack == d.stack
  {
    ErrorResponse(d.message, statusCode, d.code, d.data, d.stack)
  }

  /** What the handler does: the status sent, the body sent, the severity logged, the log context. */
  datatype Outcome = Outcome(status: int, body: ErrorResponse, severity: Severity, context: LogContext)

  /**
   * `errorHandler`. A status the extraction left `undefined` defaults to
   * 500; so the status sent is the error's own status code when it defines
   * one, and 500 otherwise.
   */
  function HandleError(e: ErrorValue, req: Request): (o: Outcome)
    ensures o.status == o.body.statusCode == o.context.statusCode
    ensures o.status == (if e.statusCode.Defined? then e.statusCode.value else 500)
    ensures o.severity == SeverityOf(o.status)
    ensures o.body.stack == e.stack && o.body.message == o.context.errorMessage
  {
    var d := ExtractErrorDetails(e);
    var statusCode := d.statusCode.GetOr(500);
    Outcome(statusCode, BuildErrorResponse(statusCode, d), SeverityOf(statusCode), BuildErrorContext(req, statusCode, d))
  }

  /**
   * `errorHandler` as written, with the log context of
   * `BuildErrorContextAsWritten`: the same status, body and severity as
   * `HandleError`, and a context that differs only in never carrying an
   * error code or error data.
   */
  function HandleErrorAsWritten(e: ErrorValue, req: Request): (o: Outcome)
    ensures o.context.errorCode == None && o.context.errorData == None
    ensures var fixed := HandleError(e, req);
      o == fixed.(context := fixed.context.(errorCode := None, errorData := None))
  {
    var d := ExtractErrorDetails(e);
    var statusCode := d.statusCode.GetOr(500);
    Outcome(statusCode, BuildErrorResponse(statusCode, d), SeverityOf(statusCode), BuildErrorContextAsWritten(req, statusCode, d))
  }

  /** An HTTP error's code and data never reach the client, even when it has them. */
  lemma HttpErrorDropsCodeAndData(e: ErrorValue, req: Request)
    requires IsHttpError(e)
    ensures HandleError(e, req).body.code == None && HandleError(e, req).body.data == None
    ensures HandleError(e, req).body.message == e.message
    ensures HandleError(e, req).context.errorCode == None
    ensures HandleError(e, req).context.errorData == None
  {
  }

  /** An error with a code and no status is answered 500, logged as an error, and keeps its code and data. */
  lemma AppErrorKeepsCodeAndData(e: ErrorValue, req: Request)
    requires IsAppError(e) && !IsHttpError(e)
    ensures HandleError(e, req).status == 500 && HandleError(e, req).severity == ErrorLevel
    ensures HandleError(e, req).body.code == e.code.Read()
    ensures HandleError(e, req).body.data == e.data.Read()
  {
  }

  /** Any other error is answered 500 with its message, or "Internal Server Error" when that is empty. */
  lemma OtherErrorIsInternal(e: ErrorValue, req: Request)
    requires !IsAppError(e)
    ensures HandleError(e, req).status == 500
    ensures HandleError(e, req).body.message == (if e.message == "" then DefaultMessage else e.message)
    ensures HandleError(e, req).body.code == None && HandleError(e, req).body.data == None
  {
  }

  /** A `statusCode` key holding `undefined` is extracted as `undefined` and defaulted to 500. */
  lemma UndefinedStatusDefaultsTo500(e: ErrorValue, req: Request)
    requires e.statusCode.Undefined?
    ensures ExtractErrorDetails(e).statusCode == None
    ensures HandleError(e, req).status == 500
  {
  }

  /** An unknown route is answered 404 "Resource not found: METHOD URL" and logged as a warning. */
  lemma NotFoundIsAnswered404(req: Request, stack: Option<string>)
    ensures HandleError(NotFound(req, stack), req).status == 404
    ensures HandleError(NotFound(req, stack), req).severity == WarnLevel
    ensures HandleError(NotFound(req, stack), req).body.message == NotFoundPrefix + RequestPath(req)
  {
  }

  /**
   * The discrepancy on one input: an application error with the code
   * "VALIDATION_ERROR" reaches the body with its code, but the handler as
   * written does not log it; the corrected handler does.
   */
  lemma ValidationCodeMissingFromLog(req: Request)
    ensures var e := PlainError("Invalid", None).(code := Defined("VALIDATION_ERROR"));
      && HandleErrorAsWritten(e, req).body.code == Some("VALIDATION_ERROR")
      && HandleErrorAsWritten(e, req).context.errorCode == None
      && HandleError(e, req).context.errorCode == Some(JsString("VALIDATION_ERROR"))
  {
  }
}
