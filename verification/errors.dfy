/**
 * The application's error kinds. Their definitions (utils/errors.js) are not
 * part of this model; the status each kind carries is the one its uses imply.
 */
module Errors {

  datatype AppError =
    | NotFound(message: string)
    | Validation(message: string)
    | Authentication(message: string)
    | General(message: string, statusCode: int)  // `new AppError(message, statusCode)`
  {
    /** The HTTP status the error is answered with. */
    function Status(): int {
      match this
      case NotFound(_) => 404
      case Validation(_) => 400
      case Authentication(_) => 401
      case General(_, c) => c
    }
  }

  /** What a route handler produces: a value, or the error it throws. */
  datatype Result<+T> = Ok(value: T) | Err(error: AppError)

  /** What a middleware produces: `next()` (Pass) or the error it throws. */
  datatype Check = Pass | Fail(error: AppError)
}
