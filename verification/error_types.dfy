/**
 * The error shapes of backend/src/types/error.ts and its two type guards.
 *
 * An error is a JavaScript object, and the guards ask whether a KEY is
 * present (`'statusCode' in error`), not whether it holds a value. The model
 * therefore keeps, for each optional property, whether the key is missing,
 * present but `undefined`, or present with a value.
 */
module ErrorTypes {
  import opened Wrappers

  /** An optional own property: no key, a key holding `undefined`, or a key holding a value. */
  datatype Slot<T> = Absent | Undefined | Defined(value: T)
  {
    /** What `'key' in obj` reports. */
    predicate HasKey() {
      !Absent?
    }

    /** What reading `obj.key` gives; None is `undefined`. */
    function Read(): Option<T> {
      if Defined? then Some(value) else None
    }
  }

  /**
   * The values `data` may hold, as far as the handler can tell them apart.
   * `undefined` is not among them: a slot holding it is `Undefined`.
   */
  datatype JsValue = JsNull | JsBool(b: bool) | JsNumber(n: int) | JsString(s: string) | JsObject(id: nat)

  /** JavaScript truthiness: false, 0, "" and null are falsy, every object is truthy. */
  predicate Truthy(v: JsValue) {
    match v
    case JsNull => false
    case JsBool(b) => b
    case JsNumber(n) => n != 0
    case JsString(s) => s != ""
    case JsObject(_) => true
  }

  /**
   * An `Error`, possibly carrying the optional properties of `AppError`
   * (status code, application code, data). The stack trace is opaque text.
   */
  datatype ErrorValue = ErrorValue(
    message: string,
    stack: Option<string>,
    statusCode: Slot<int>,
    code: Slot<string>,
    data: Slot<JsValue>)

  /** The property names for which the `in` operator answers true. */
  function Keys(e: ErrorValue): set<string>
  {
    {"message", "stack"}
    + (if e.statusCode.HasKey() then {"statusCode"} else {})
    + (if e.code.HasKey() then {"code"} else {})
    + (if e.data.HasKey() then {"data"} else {})
  }

  /** `isHttpError`: the `statusCode` key is present, whatever it holds. */
  function IsHttpError(e: ErrorValue): (b: bool)
    ensures b <==> !e.statusCode.Absent?
  {
    "statusCode" in Keys(e)
  }

  /** `isAppError`: the `statusCode` key or the `code` key is present. */
  function IsAppError(e: ErrorValue): (b: bool)
    ensures b <==> !e.statusCode.Absent? || !e.code.Absent?
  {
    "statusCode" in Keys(e) || "code" in Keys(e)
  }

  /** A plain `Error`: a message and a stack, none of the optional keys. */
  function PlainError(message: string, stack: Option<string>): (e: ErrorValue)
    ensures Keys(e) == {"message", "stack"}
  {
    ErrorValue(message, stack, Absent, Absent, Absent)
  }

  /** Every HTTP error is an application error; the converse fails for a code-only error. */
  lemma HttpErrorIsAppError(e: ErrorValue)
    ensures IsHttpError(e) ==> IsAppError(e)
    ensures IsAppError(e) && !IsHttpError(e) <==> e.statusCode.Absent? && !e.code.Absent?
  {
  }

  /** A plain error passes neither guard. */
  lemma PlainErrorPassesNeither(message: string, stack: Option<string>)
    ensures !IsHttpError(PlainError(message, stack))
    ensures !IsAppError(PlainError(message, stack))
  {
  }

  /** An error given only a `code` passes `isAppError` and fails `isHttpError`. */
  lemma CodeOnlyIsAppErrorOnly(message: string, stack: Option<string>, code: string)
    ensures var e := PlainError(message, stack).(code := Defined(code));
      IsAppError(e) && !IsHttpError(e)
  {
  }

  /** A `statusCode` key makes an error an HTTP error even when it holds `undefined`. */
  lemma UndefinedStatusIsHttpError(e: ErrorValue)
    requires e.statusCode.Undefined?
    ensures IsHttpError(e) && e.statusCode.Read() == None
  {
  }
}
