/**
 * The global error handler (middleware/errorHandler.js): it copies the thrown
 * error, lets a chain of independent checks on the error's shape replace the
 * copy, falls back to 500, and answers with a `{ success: false, error }`
 * envelope.
 */
module ErrorHandler {
  import opened JsValues
  import opened JsStrings
  import opened Errors

  /** What the handler can observe of a thrown value. */
  datatype Thrown = Thrown(
    name: string,                   // `err.name`
    message: string,                // `err.message`
    stack: Option<string>,          // `err.stack`
    statusCode: Option<int>,        // an own `statusCode` field, copied by `{ ...err }`
    code: Option<int>,              // a numeric `err.code`
    isSyntaxError: bool,            // `err instanceof SyntaxError`
    status: Option<int>,            // a numeric `err.status`
    hasBody: bool,                  // `'body' in err`
    errors: Option<seq<string>>)    // the `.message` of each value of `err.errors`; None when it is undefined or null

  /** The handler's working copy of the error: the two fields the response reads. */
  datatype ErrorRecord = ErrorRecord(statusCode: Option<int>, message: string)

  /** The JSON body of the response. */
  datatype Envelope = Envelope(success: bool, message: string, stack: Option<string>)

  /** The handler answers, or itself throws (`Object.values` of an `err.errors` that is undefined or null). */
  datatype Outcome = Responded(status: int, body: Envelope) | Threw

  const ResourceNotFoundText := "Resource not found"
  const DuplicateText := "Duplicate field value entered"
  const InvalidJsonText := "Invalid JSON format in request body"
  const InternalErrorText := "Internal Server Error"

  /** `!error.statusCode` is false: a status is present and not 0. */
  predicate StatusTruthy(c: Option<int>) {
    c.Some? && c.value != 0
  }

  predicate IsJsonSyntaxError(err: Thrown) {
    err.isSyntaxError && err.status == Some(400) && err.hasBody
  }

  /**
   * `Object.values(err.errors)` fails on a ValidationError-named error whose
   * `errors` is undefined or null; a number or boolean there gives no values.
   */
  predicate HandlerThrows(err: Thrown) {
    err.name == "ValidationError" && err.errors.None?
  }

  /**
   * The record the shape checks leave, looked at from the last check back:
   * the last check that matches decides; `None` when none matches.
   */
  function Matched(err: Thrown): Option<ErrorRecord>
    requires !HandlerThrows(err)
  {
    if IsJsonSyntaxError(err) then Some(ErrorRecord(Some(400), InvalidJsonText))
    else if err.name == "ValidationError" then Some(ErrorRecord(Some(400), Join(err.errors.value, ", ")))
    else if err.code == Some(11000) then Some(ErrorRecord(Some(400), DuplicateText))
    else if err.name == "CastError" then Some(ErrorRecord(Some(404), ResourceNotFoundText))
    else None
  }

  /** The response for `err`, when `development` says whether `NODE_ENV` is `'development'`. */
  function ErrorResponse(err: Thrown, development: bool): Outcome {
    if HandlerThrows(err) then Threw
    else
      var record := match Matched(err)
        case Some(r) => r
        case None => ErrorRecord(err.statusCode, err.message);
      var final := if StatusTruthy(record.statusCode) then record else ErrorRecord(Some(500), InternalErrorText);
      Responded(final.statusCode.value, Envelope(false, final.message, if development then err.stack else None))
  }

  /** `errorHandler`: each check that matches replaces the working copy; then the 500 fallback; then the answer. */
  method HandleError(err: Thrown, development: bool) returns (out: Outcome)
    ensures out == ErrorResponse(err, development)
  {
    var error := ErrorRecord(err.statusCode, err.message);
    if err.name == "CastError" {
      error := ErrorRecord(Some(404), ResourceNotFoundText);
    }
    if err.code == Some(11000) {
      error := ErrorRecord(Some(400), DuplicateText);
    }
    if err.name == "ValidationError" {
      if err.errors.None? {
        return Threw;
      }
      error := ErrorRecord(Some(400), Join(err.errors.value, ", "));
    }
    if err.isSyntaxError && err.status == Some(400) && err.hasBody {
      error := ErrorRecord(Some(400), InvalidJsonText);
    }
    if !StatusTruthy(error.statusCode) {
      error := error.(statusCode := Some(500));
      error := error.(message := InternalErrorText);
    }
    var stack := if development then err.stack else None;
    out := Responded(error.statusCode.value, Envelope(false, error.message, stack));
  }

  /**
   * Every answer reports failure with a truthy status; the stack is shown only
   * in development, and there it is the thrown error's own.
   */
  lemma ResponseShape(err: Thrown, development: bool)
    ensures ErrorResponse(err, development).Threw? <==> HandlerThrows(err)
    ensures ErrorResponse(err, development).Responded? ==>
      var r := ErrorResponse(err, development);
      && !r.body.success
      && r.status != 0
      && (r.body.stack.Some? ==> development)
      && (development ==> r.body.stack == err.stack)
  {
  }

  /** None of the special shapes the handler rewrites. */
  predicate PlainError(err: Thrown) {
    err.name != "CastError" && err.name != "ValidationError" && err.code != Some(11000)
    && !IsJsonSyntaxError(err)
  }

  /**
   * A plain error with a status is answered with that status and its own
   * message; without one (or with 0) it is answered 500 and its message is hidden.
   */
  lemma PlainErrorResponse(err: Thrown, development: bool)
    requires PlainError(err)
    ensures StatusTruthy(err.statusCode) ==>
      ErrorResponse(err, development).status == err.statusCode.value
      && ErrorResponse(err, development).body.message == err.message
    ensures !StatusTruthy(err.statusCode) ==>
      ErrorResponse(err, development).status == 500
      && ErrorResponse(err, development).body.message == InternalErrorText
  {
  }

  /** Each special shape on its own, and the status and message it is answered with. */
  lemma ShapeResponses(err: Thrown, development: bool)
    ensures IsJsonSyntaxError(err) && !HandlerThrows(err) ==>
      ErrorResponse(err, development).status == 400
      && ErrorResponse(err, development).body.message == InvalidJsonText
    ensures !IsJsonSyntaxError(err) && err.name == "ValidationError" && err.errors.Some? ==>
      ErrorResponse(err, development).status == 400
      && ErrorResponse(err, development).body.message == Join(err.errors.value, ", ")
    ensures !IsJsonSyntaxError(err) && err.name != "ValidationError" && err.code == Some(11000) ==>
      ErrorResponse(err, development).status == 400
      && ErrorResponse(err, development).body.message == DuplicateText
    ensures !IsJsonSyntaxError(err) && err.name == "CastError" && err.code != Some(11000) ==>
      ErrorResponse(err, development).status == 404
      && ErrorResponse(err, development).body.message == ResourceNotFoundText
  {
  }

  /** The checks are independent: a CastError that also carries code 11000 is answered as a duplicate. */
  lemma LastMatchWins(err: Thrown, development: bool)
    requires err.name == "CastError" && err.code == Some(11000) && !IsJsonSyntaxError(err)
    ensures ErrorResponse(err, development).status == 400
    ensures ErrorResponse(err, development).body.message == DuplicateText
  {
  }

  /**
   * An application error thrown by a route (whose name is none of the special
   * ones) is answered with its own status and message, unless its status is 0.
   */
  lemma AppErrorResponse(e: AppError, name: string, stack: Option<string>, development: bool)
    requires name != "CastError" && name != "ValidationError"
    ensures var err := Thrown(name, e.message, stack, Some(e.Status()), None, false, None, false, None);
      && (e.Status() != 0 ==>
          ErrorResponse(err, development) == Responded(e.Status(), Envelope(false, e.message, if development then stack else None)))
      && (e.Status() == 0 ==>
          ErrorResponse(err, development) == Responded(500, Envelope(false, InternalErrorText, if development then stack else None)))
  {
  }
}
