/**
 * The application error type (backend/src/types/errors.ts).  Its fields are
 * assigned once, in the constructor, and never changed afterwards, so an
 * error is a value here.
 */
module AppErrors {
  import opened Base

  const DefaultStatusCode := 500

  datatype AppError = AppError(message: string, statusCode: int, code: Option<string>, isOperational: bool)

  /** `new AppError(message, statusCode?, code?)`: the status defaults to 500
      when it is not supplied, the code is kept as given (possibly absent),
      and every such error is operational. */
  function NewAppError(message: string, statusCode: Option<int>, code: Option<string>): (e: AppError)
    ensures e.message == message && e.code == code
    ensures statusCode.Some? ==> e.statusCode == statusCode.value
    ensures statusCode.None? ==> e.statusCode == DefaultStatusCode
    ensures e.isOperational
  {
    AppError(message, if statusCode.Some? then statusCode.value else DefaultStatusCode, code, true)
  }
}
