/**
 * The last-resort error handler (backend/src/middleware/errorHandler.ts):
 * from a thrown error, the request id and the environment, the status and
 * the JSON body sent back.
 */
module ErrorHandler {
  import opened Base
  import opened JsString
  import opened AppErrors

  const MaskedMessage := "Internal server error"
  const DefaultMessage := "Internal Server Error"
  const UnknownRequestId := "unknown"

  /** Whether the thrown value is an `AppError`, and if so its operational flag. */
  datatype ErrorKind = IsAppError(isOperational: bool) | PlainError

  /** A thrown error as the handler sees it: every property may be missing. */
  datatype ThrownError = ThrownError(
    message: string, statusCode: Option<int>, code: Option<string>, stack: Option<string>, kind: ErrorKind)

  /** An `AppError` reaching the handler. */
  function FromAppError(e: AppError, stack: Option<string>): ThrownError {
    ThrownError(e.message, Some(e.statusCode), e.code, stack, IsAppError(e.isOperational))
  }

  /** `{ error: { message, code?, requestId, stack? } }`. */
  datatype ErrorBody = ErrorBody(message: string, code: Option<string>, requestId: string, stack: Option<string>)

  /** Only an `AppError` can be operational. */
  predicate Operational(err: ThrownError) {
    err.kind.IsAppError? && err.kind.isOperational
  }

  /** `err.statusCode || 500`. */
  function StatusOf(err: ThrownError): (status: int)
    ensures status != 0
    ensures err.statusCode.Some? && err.statusCode.value != 0 ==> status == err.statusCode.value
    ensures err.statusCode.None? || err.statusCode.value == 0 ==> status == 500
  {
    if err.statusCode.Some? && err.statusCode.value != 0 then err.statusCode.value else 500
  }

  /** An error built by the `AppError` constructor reaches the handler as
      operational with its own status, so the handler never masks its
      message: the client sees it whenever it is non-empty. */
  lemma AppErrorNeverMasked(message: string, statusCode: Option<int>, code: Option<string>, stack: Option<string>)
    ensures var err := FromAppError(NewAppError(message, statusCode, code), stack);
      && Operational(err)
      && StatusOf(err) == (if statusCode.None? then DefaultStatusCode
                           else if statusCode.value == 0 then 500 else statusCode.value)
  {
  }

  /** `errorHandler(err, req, res)`.  The status is the error's own, or 500
      when it has none.  The client sees "Internal server error" in place of
      the message exactly for a 500 in production that is not an operational
      `AppError`.  A request id is always present, `unknown` when the request
      has none.  The code is copied when the error has a non-empty one, the
      stack only outside production. */
  method HandleError(err: ThrownError, requestId: Option<string>, isProduction: bool)
    returns (status: int, body: ErrorBody)
    ensures status == StatusOf(err)
    ensures status == 500 && isProduction && !Operational(err) ==> body.message == MaskedMessage
    ensures !(status == 500 && isProduction && !Operational(err)) ==>
      body.message == (if err.message != "" then err.message else DefaultMessage)
    ensures body.requestId == (if Truthy(requestId) then requestId.value else UnknownRequestId)
    ensures body.requestId != ""
    ensures body.code.Some? <==> Truthy(err.code)
    ensures body.code.Some? ==> body.code == err.code
    ensures body.stack.Some? <==> !isProduction && Truthy(err.stack)
    ensures body.stack.Some? ==> body.stack == err.stack
  {
    status := if err.statusCode.Some? && err.statusCode.value != 0 then err.statusCode.value else 500;
    var message := if err.message != "" then err.message else DefaultMessage;
    var isOperational := if err.kind.IsAppError? then err.kind.isOperational else false;
    var id := if Truthy(requestId) then requestId.value else UnknownRequestId;
    body := ErrorBody(if status == 500 && isProduction && !isOperational then MaskedMessage else message, None, id, None);
    if Truthy(err.code) {
      body := body.(code := err.code);
    }
    if !isProduction && Truthy(err.stack) {
      body := body.(stack := err.stack);
    }
  }
}
