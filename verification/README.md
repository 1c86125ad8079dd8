# Roman numeral service, modelled in Dafny

A model of the Roman numeral converter service (a TypeScript/Express back end
and a React form), with proofs about it. The model covers:

- the converter `toRoman` and its thirteen-row table (`RomanService`,
  `RomanByDigits`);
- JavaScript's `parseInt(s, 10)` as the route and the form use it (`JsParseInt`);
- the `GET /` conversion route (`RomanRoute`);
- the error types and their key-presence guards (`ErrorTypes`);
- the 404 handler and the central error handler (`ErrorHandler`);
- the policy helpers of the request logger (`RequestLogger`);
- the input guard of the converter form (`RomanNumeralForm`).

`Wrappers` holds the `Option` type.

Main results:

- `toRoman` is total on natural numbers: its `|| [0, '']` fallback is never
  taken for a positive amount, and the recursion always terminates.
- Its output uses only the seven Roman digits.
- Its output is the concatenation of the table rows it selects. The values of
  those rows add up to the input and never increase.
- The output reads back as the input under the standard subtractive reading.
- The output equals the digit-by-digit thousands/hundreds/tens/units spelling.
  The tested values of the converter and the route follow from that theorem;
  the thirteen table rows follow from the first recursion step.
- The route answers 200 exactly when `parseInt` gives a number in 1..3999. The
  converter is only ever called on such a number.
- The form's guard `0 < v < 4000` accepts exactly the strings the route
  answers with 200.
- The error handler's classification order is modelled as written. Any error
  with a `statusCode` key, even one holding `undefined`, takes the HTTP branch,
  and that branch drops `code` and `data`.
- The application-error branch computes `statusCode || 500`. It is only reached
  when there is no `statusCode` key, so it always answers 500.

Two consequences of the guards as the code writes them (types/error.ts:32-34,
middleware/error-handler.ts:69-75):

- Every error with a `statusCode` key takes the HTTP branch, even one that also
  has `code` or `data`.
- The status that branch carries is passed on as it is; nothing restricts it to
  a range of HTTP statuses.

## Model

| member | source | states |
|---|---|---|
| RomanService.TableFacts | backend/src/services/roman.ts:12-26 | the table is strictly decreasing by value, every row's symbol reads back as its value, and the last row is 1 |
| RomanService.FindFrom | backend/src/services/roman.ts:41 | a row `find` returns fits the amount and reads back as its value; for a positive amount the search always finds one |
| RomanService.FindFromFirst | backend/src/services/roman.ts:41 | the row found is the first row from the start index that fits |
| RomanService.FindFromLargest | backend/src/services/roman.ts:40-41 | because the table is sorted, the first fitting row is the largest fitting row |
| RomanService.FindFromNone | backend/src/services/roman.ts:41 | `find` returns nothing exactly when no row fits |
| RomanService.Pick | backend/src/services/roman.ts:41 | the choice between the row `find` returns and the `[0, '']` fallback: a fitting row for a positive amount, the fallback only at 0 |
| RomanService.ToRoman | backend/src/services/roman.ts:33-44 | terminates on every natural number; the output contains only Roman digits and is empty exactly for 0 |
| RomanService.Fit | backend/src/services/roman.ts:41 | the selected row for a positive amount is well formed and worth between 1 and the amount |
| RomanService.FitIsLargest | backend/src/services/roman.ts:40-41 | the selected row is a table row, and no fitting row is worth more |
| RomanService.FitMonotone | backend/src/services/roman.ts:12-26 | a smaller amount never selects a more valuable row |
| RomanService.ToRomanStep | backend/src/services/roman.ts:41-43 | one recursion step: the selected row's symbol, then the numeral of the remainder |
| RomanService.ToRomanSpellsTokens | backend/src/services/roman.ts:41-43 | the output is exactly the symbols of the emitted rows, concatenated |
| RomanService.TokensSumToInput | backend/src/services/roman.ts:33-44 | the emitted rows' values add up to the input |
| RomanService.TokensAreRows | backend/src/services/roman.ts:12-26 | every emitted row is a row of the table |
| RomanService.TokensFirstIsLargest | backend/src/services/roman.ts:40-41 | the first emitted row is the largest row that fits the input |
| RomanService.TokensNonIncreasing | backend/src/services/roman.ts:12-43 | emitted values never increase from left to right |
| RomanService.DecodeToRoman | backend/src/services/roman.ts:33-44 | the subtractive reading of the output gives back the input |
| RomanByDigits.ToRomanByDigits | backend/src/services/roman.ts:33-44 | the output is the thousands as M's, then the standard spellings of the hundreds, tens and units digits |
| RomanByDigits.RowsConvert | backend/src/tests/services/roman.test.ts:4-54 | each table value converts to its own symbol: 1 I, 4 IV, 5 V, ..., 1000 M |
| RomanByDigits.ConvertsRepeats | backend/src/tests/services/roman.test.ts:68-73 | 3, 30, 300 and 3000 convert to III, XXX, CCC and MMM |
| RomanByDigits.ConvertsYears | backend/src/tests/services/roman.test.ts:56-66 | 1984, 2023 and 3999 convert to MCMLXXXIV, MMXXIII and MMMCMXCIX |
| RomanByDigits.ConvertsCombinations | backend/src/tests/services/roman.test.ts:75-79 | 1999, 2888 and 3549 convert to MCMXCIX, MMDCCCLXXXVIII and MMMDXLIX |
| RomanByDigits.ConvertsSmall | backend/src/tests/routes/roman.test.ts:53-72 | 1, 4, 9, 42 and 999 convert to I, IV, IX, XLII and CMXCIX |
| JsParseInt.TrimStart | backend/src/routes/roman.ts:25 | the leading white space `parseInt` skips: the result is a suffix, and what was removed is all white space |
| JsParseInt.DigitRun | backend/src/routes/roman.ts:25 | the digit prefix `parseInt` reads is all digits and is followed by a non-digit or the end |
| JsParseInt.ParseInt | backend/src/routes/roman.ts:25 | after the leading white space and an optional sign, NaN exactly when no digit follows; otherwise the value of the digit prefix, negated after a minus sign |
| JsParseInt.Show | backend/src/routes/roman.ts:25 | the decimal spelling of a number is non-empty, all digits, with no leading zero |
| JsParseInt.DigitsValueShow | backend/src/routes/roman.ts:25 | reading the decimal spelling of `v` gives `v` |
| JsParseInt.ParseIntShow | backend/src/routes/roman.ts:25 | white space, a decimal spelling, then any non-digit text parses to the spelled number; "42.75" parses to 42 |
| JsParseInt.ParseIntOfShow | backend/src/routes/roman.ts:25 | the bare decimal spelling of `v` parses to `v` |
| JsParseInt.ParseIntNegative | backend/src/routes/roman.ts:25 | a minus sign before the digits negates the value |
| JsParseInt.ParseIntNoDigits | backend/src/routes/roman.ts:25 | with no digit after the white space and the sign (white space after a sign included), the result is NaN |
| RomanRoute.HandleQuery | backend/src/routes/roman.ts:13-46 | the answer is 200 with a result or 400 with an error; a result's input is in 1..3999, and its output is Roman digits that read back as the input |
| RomanRoute.MissingExactly | backend/src/routes/roman.ts:17-23 | the "Missing" error is given exactly for an absent or empty parameter |
| RomanRoute.OkExactlyWhenAccepted | backend/src/routes/roman.ts:25-42 | a present parameter gets 200 exactly when `parseInt` gives a number in 1..3999, and then the answer is that number and its numeral |
| RomanRoute.InvalidExactlyWhenRejected | backend/src/routes/roman.ts:25-33 | a non-empty parameter gets "Invalid input" exactly when `parseInt` gives NaN or a number outside 1..3999 |
| RomanRoute.ConvertsEverySpelling | backend/src/routes/roman.ts:25-42 | every number in 1..3999, spelled in decimal with white space before it and non-digit text after it, is converted |
| RomanRoute.ConvertsQuery | backend/src/routes/roman.ts:35-42 | a query spelling a number in range is answered 200 with that number and its numeral |
| RomanRoute.AnswersMissingQuery | backend/src/tests/routes/roman.test.ts:18-23 | no parameter, or an empty one, gets 400 "Missing required query parameter: query" |
| RomanRoute.RejectsLetters | backend/src/tests/routes/roman.test.ts:25-30 | "abc" gets 400 "Invalid input" |
| RomanRoute.RejectsZero | backend/src/tests/routes/roman.test.ts:32-37 | "0" gets 400 "Invalid input" |
| RomanRoute.RejectsNegative | backend/src/tests/routes/roman.test.ts:39-44 | "-10" gets 400 "Invalid input" |
| RomanRoute.RejectsTooLarge | backend/src/tests/routes/roman.test.ts:46-51 | "4000" gets 400 "Invalid input" |
| RomanRoute.TruncatesFraction | backend/src/tests/routes/roman.test.ts:74-81 | "42.75" gets 200 with input 42 and output XLII |
| RomanRoute.AnswersTestedNumbers | backend/src/tests/routes/roman.test.ts:53-90 | the queries 1, 4, 9, 42, 999, 2023, 3999 and 1984 get 200 with their numerals |
| ErrorTypes.IsHttpError | backend/src/types/error.ts:32-34 | true exactly when the `statusCode` key is present, whatever value it holds |
| ErrorTypes.IsAppError | backend/src/types/error.ts:39-41 | true exactly when the `statusCode` key or the `code` key is present |
| ErrorTypes.HttpErrorIsAppError | backend/src/types/error.ts:32-41 | every HTTP error is an application error; the ones that are only application errors are those with `code` and no `statusCode` key |
| ErrorTypes.PlainErrorPassesNeither | backend/src/tests/types/error.test.ts:12-15 | a plain `Error` fails both guards |
| ErrorTypes.CodeOnlyIsAppErrorOnly | backend/src/tests/types/error.test.ts:31-35 | an error with only `code` passes `isAppError` and fails `isHttpError` |
| ErrorTypes.UndefinedStatusIsHttpError | backend/src/types/error.ts:32-34 | a `statusCode` key holding `undefined` still makes an HTTP error, whose status reads as `undefined` |
| ErrorHandler.NotFound | backend/src/middleware/error-handler.ts:10-16 | the forwarded error is an HTTP error with status 404, and has no code and no data |
| ErrorHandler.StatusOr500 | backend/src/middleware/error-handler.ts:79 | a defined non-zero status is kept; an undefined or 0 status becomes 500 |
| ErrorHandler.ExtractErrorDetails | backend/src/middleware/error-handler.ts:68-92 | the stack is kept; the HTTP and application branches keep the message even when empty, and only the fallback branch replaces an empty message by the default; an HTTP error keeps its status as read (undefined exactly when its `statusCode` key holds `undefined`) and loses code and data; an application error without a `statusCode` key gets 500 and keeps its code and data |
| ErrorHandler.SeverityOf | backend/src/middleware/error-handler.ts:112-120 | error exactly for status >= 500, warn exactly for 400..499, info exactly below 400 |
| ErrorHandler.ContextArgument | backend/src/middleware/error-handler.ts:41-47 | the object handed to `buildErrorContext` has no `code` or `data` key; it has `errorCode`/`errorData` exactly when those are defined |
| ErrorHandler.BuildErrorContextAsWritten | backend/src/middleware/error-handler.ts:97-107 | the context as written has the status, message, path, ip and stack it was given, and never an error code or error data |
| ErrorHandler.ContextAsWrittenDropsCodeAndData | backend/src/middleware/error-handler.ts:97-107 | as written, the log context never gets `errorCode` or `errorData`, for any error |
| ErrorHandler.BuildErrorContext | backend/src/middleware/error-handler.ts:97-107 | the corrected context has the status, message and stack it was given, and gets `errorCode`/`errorData` exactly when those values are truthy |
| ErrorHandler.BuildErrorResponse | backend/src/middleware/error-handler.ts:125-134 | the body carries the status it is given and the extracted message, code and data; the stack is included whatever the environment |
| ErrorHandler.HandleError | backend/src/middleware/error-handler.ts:25-63 | the status sent equals the body's and the context's status code; it is the error's own status code when it defines one and 500 otherwise; the severity follows the status; the body always has the stack |
| ErrorHandler.HandleErrorAsWritten | backend/src/middleware/error-handler.ts:25-63 | the handler as written: the same status, body and severity as the corrected handler, and a log context that differs from it only in never carrying an error code or error data |
| ErrorHandler.HttpErrorDropsCodeAndData | backend/src/middleware/error-handler.ts:69-75 | an HTTP error's code and data reach neither the client nor the log, even when present |
| ErrorHandler.AppErrorKeepsCodeAndData | backend/src/middleware/error-handler.ts:77-85 | an error with `code` and no `statusCode` gets 500, is logged as an error, and keeps its code and data in the body |
| ErrorHandler.OtherErrorIsInternal | backend/src/middleware/error-handler.ts:87-91 | any other error gets 500 with its message, or "Internal Server Error" when the message is empty, and no code or data |
| ErrorHandler.UndefinedStatusDefaultsTo500 | backend/src/middleware/error-handler.ts:32-38 | an undefined extracted status defaults to 500 |
| ErrorHandler.NotFoundIsAnswered404 | backend/src/middleware/error-handler.ts:10-16 | an unknown route gets 404 "Resource not found: METHOD URL" and is logged as a warning |
| ErrorHandler.ValidationCodeMissingFromLog | backend/src/middleware/error-handler.ts:41-47 | for an error with code "VALIDATION_ERROR", the body has the code; the handler as written does not log it; the corrected handler does |
| RequestLogger.SelectLogLevel | backend/src/middleware/request-logger.ts:15-20 | an error always gives 'error'; otherwise >= 500 error, 400..499 warn, 300..399 silent, below 300 info, each exactly |
| RequestLogger.LevelsAgreeOnErrorStatuses | backend/src/middleware/request-logger.ts:15-20 | for error statuses without an error object, the request logger and the error handler choose the same severity |
| RequestLogger.AddRequestContext | backend/src/middleware/request-logger.ts:23-26 | the correlation is the correlation id when that is non-empty and otherwise the request id (possibly missing); the user is the user id when that is non-empty and otherwise "anonymous", so never empty |
| RequestLogger.ContextComesFromHeaders | backend/src/middleware/request-logger.ts:23-26 | the correlation is missing or one of the two id headers; the user is "anonymous" or the user id header |
| RequestLogger.OtherHeadersIgnored | backend/src/middleware/request-logger.ts:23-26 | changing any header other than the correlation, request and user ids changes neither property |
| RequestLogger.CorrelationIdPreferred | backend/src/middleware/request-logger.ts:24 | a non-empty correlation id wins over the request id |
| RequestLogger.Includes | backend/src/middleware/request-logger.ts:31 | `includes` succeeds on an empty pattern and whenever the string starts with the pattern, and never for a pattern longer than the string |
| RequestLogger.IncludesExactly | backend/src/middleware/request-logger.ts:31 | the substring search succeeds exactly when the pattern occurs at some index |
| RequestLogger.IsHealthEndpoint | backend/src/middleware/request-logger.ts:29-32 | true exactly when "/health" or "/status" occurs in the URL; a missing URL is read as "" |
| RequestLogger.MissingUrlIsLogged | backend/src/middleware/request-logger.ts:30 | a request without a URL is not filtered out |
| RequestLogger.HealthPathsAreSkipped | backend/src/middleware/request-logger.ts:29-32 | any URL containing "/health" or "/status", anywhere, is filtered out |
| RomanNumeralForm.IsValidInput | frontend/src/features/RomanNumeral.tsx:29-32 | the input is accepted exactly when `parseInt` gives a number in 1..3999 |
| RomanNumeralForm.ButtonDisabled | frontend/src/features/RomanNumeral.tsx:62 | the button is disabled while loading; with nothing loading, a valid input enables it; when it is enabled the input parses to a number in 1..3999, which a submit stores |
| RomanNumeralForm.HandleSubmit | frontend/src/features/RomanNumeral.tsx:22-27 | the text is unchanged; an accepted input stores its parsed value; any other input leaves the state unchanged; a stored number stays within 1..3999 |
| RomanNumeralForm.ClientAgreesWithServer | frontend/src/features/RomanNumeral.tsx:29-32 | the form accepts a string exactly when the server answers it with 200 |
| RomanNumeralForm.EnabledSubmitIsConverted | frontend/src/features/RomanNumeral.tsx:59-63 | pressing the enabled button stores a number in 1..3999 whose decimal spelling the server converts |
| RomanNumeralForm.EnabledExactlyWhenServerAccepts | frontend/src/features/RomanNumeral.tsx:62 | the button is enabled exactly when no request is loading and the server answers the input with 200 |
| RomanNumeralForm.GuardOnTestedInputs | frontend/src/features/RomanNumeral.tsx:29-32 | "42.75" is accepted; "abc", "0", "-10" and "4000" are not |

## Findings

| source | as written | input that shows it | evidently intended | confidence | as-written member | corrected member |
|---|---|---|---|---|---|---|
| backend/src/middleware/error-handler.ts:104-105 | `buildErrorContext` reads `details.code` and `details.data`. The object `errorHandler` passes (lines 41-47) names those keys `errorCode` and `errorData`, so both reads are `undefined` and the context never gains them. | an error with `code = "VALIDATION_ERROR"` and no `statusCode`: the response body carries the code, the log context does not (`ErrorHandler.ValidationCodeMissingFromLog`) | the log context gains `errorCode`/`errorData` when those values are truthy, as `buildErrorResponse` is given `code: errorCode, data: errorData` (lines 56-57) | high; not executed | ErrorHandler.BuildErrorContextAsWritten | ErrorHandler.BuildErrorContext |

`ErrorHandler.HandleError` uses the corrected context;
`ErrorHandler.HandleErrorAsWritten` is the handler as written, and differs
from it only in the logged code and data.
`ErrorHandler.ContextAsWrittenDropsCodeAndData` proves that the as-written
context drops the code and data for every input.

## Left out

- I/O is replaced by returned values. This covers the Express request and
  response objects, the `res.status(...).json(...)` calls, `next(...)`, the
  pino logger, and the HTTP client of the form. The handlers return the status,
  body, severity and log context they would send or log.
- The `try`/`catch` around the route (backend/src/routes/roman.ts:43-45) is not
  modelled. On the inputs that reach it the converter always returns, which
  `RomanService.ToRoman` shows, so the `catch` is never taken.
- backend/src/server.ts is not part of this model. That covers the app wiring,
  CORS, `listen`, the process signal handlers, and the `/api/health` and
  `/api/test-error` routes. backend/src/utils/logger.ts is not part of it
  either.
- The pino-http configuration and redaction paths
  (backend/src/middleware/request-logger.ts:35-46) are third-party
  configuration. Only the three helper functions are modelled.
- frontend/src/hooks/useGetRomanNumeral.ts and the JSX of the form are not part
  of this model. `isLoading` is a parameter. `EnabledSubmitIsConverted` takes
  the stored number to be sent as its decimal spelling.
- RomanService.ToRoman: defined on natural numbers only. The source's
  behaviour on negative or fractional arguments is not modelled; the route
  never passes those.
- JsParseInt.ParseInt: models radix 10 only. The white-space set is the ASCII
  white space plus no-break space, byte order mark, line separator and
  paragraph separator, not every Unicode space separator. "-0" gives 0 instead
  of negative zero; the route rejects both alike. Integers are unbounded, with
  no floating-point rounding of very long digit strings; the route rejects any
  such value as above 3999 anyway.
- RomanRoute.HandleQuery: the query parameter is a string or absent. Express's
  parsing of repeated or nested parameters into arrays and objects is not
  modelled.
- ErrorTypes.IsHttpError: only the error's own optional keys are tracked. The
  other keys `createHttpError` adds (`status`, `expose`) and the prototype chain
  are not.
- ErrorTypes.ErrorValue: `code` is modelled as a string. `data` is modelled as
  null, a boolean, an integer, a string or an opaque object; NaN and fractional
  numbers are not modelled. Stack traces are opaque text.
- ErrorHandler.HandleError: builds its log context with the corrected
  `buildErrorContext` (see Findings), so it logs `errorCode` and `errorData`
  when they are truthy. The program as written logs neither; that behaviour
  is `ErrorHandler.HandleErrorAsWritten`, which agrees with `HandleError` on
  everything else.
- ErrorHandler.HandleError: Node's rejection of status codes outside 100..999
  in `res.status` is not modelled. An HTTP error carrying such a code is
  modelled as answered with it.
- RequestLogger.AddRequestContext: headers are a map from lower-case names to
  single string values. Headers that Node delivers as arrays are not modelled.
- RequestLogger.SelectLogLevel: the error argument is modelled as present or
  absent. Its truthiness as an arbitrary value is reduced to that.
- RomanNumeralForm.IsValidInput: the browser's own filtering of a
  `type="number"` field is not modelled. The guard is stated for every string.
