/**
 * The global error handler of src/middlewares/error.middleware.ts: an
 * ordered chain that turns whatever reached it into a status code and a
 * JSON body.  The first branch that applies wins.
 */
module ErrorHandling {
  import opened Wrappers
  import opened Constants
  import opened HttpErrors
  import opened RefreshTokens

  /**
   * A JSON response body: an exception with its `status` key omitted
   * (`errors` only for an EntityError), or `{status, message}`.
   */
  datatype Body =
    | ExceptionBody(message: string, errorInfo: Option<ErrorInfo>, errors: Option<map<string, FieldError>>)
    | StatusBody(status: string, message: string)

  datatype Response = Response(status: int, body: Body)

  const MONGO_SERVER_ERROR := "MongoServerError"
  const VALIDATION_ERROR := "ValidationError"
  const DUPLICATE_KEY_CODE := 11000
  const DOCUMENT_VALIDATION_CODE := 121

  /** `omit(error, 'status')`: every field of the exception except its status. */
  function OmitStatus(x: HttpException): (b: Body)
    ensures b.ExceptionBody? && b.message == x.message && b.errorInfo == x.errorInfo
    ensures b.errors.Some? <==> x.EntityError?
    ensures x.EntityError? ==> b.errors.value == x.errors
  {
    match x
    case HttpException(_, message, info) => ExceptionBody(message, info, None)
    case EntityError(_, message, info, errors) => ExceptionBody(message, info, Some(errors))
  }

  /** `Object.keys(keyPattern || {})[0]` as a template literal renders it: the first key, or "undefined". */
  function DuplicateField(keyPattern: seq<string>): string {
    if keyPattern == [] then "undefined" else keyPattern[0]
  }

  /** `errorMiddleware(error, req, res, next)`. */
  function ErrorMiddleware(e: AppError): (r: Response)
    ensures e.Http? ==> r == Response(e.exception.status, OmitStatus(e.exception))
    ensures e.Native? && e.name == MONGO_SERVER_ERROR && e.code == Some(DUPLICATE_KEY_CODE) ==>
      r == Response(CONFLICT, StatusBody("error", DuplicateField(e.keyPattern) + " already exists"))
    ensures e.Native? && e.name == MONGO_SERVER_ERROR && e.code == Some(DOCUMENT_VALIDATION_CODE) ==>
      r == Response(BAD_REQUEST, StatusBody("error", "Validation failed: " + e.message))
    ensures e.Native? && e.name == VALIDATION_ERROR ==> r == Response(BAD_REQUEST, StatusBody("error", e.message))
    ensures (e.Native? && e.name != VALIDATION_ERROR
             && !(e.name == MONGO_SERVER_ERROR && e.code in {Some(DUPLICATE_KEY_CODE), Some(DOCUMENT_VALIDATION_CODE)})) ==>
      r == Response(INTERNAL_SERVER_ERROR, StatusBody("error", if e.message == "" then "Internal server error" else e.message))
  {
    if e.Http? then Response(e.exception.status, OmitStatus(e.exception))
    else if e.name == MONGO_SERVER_ERROR && e.code == Some(DUPLICATE_KEY_CODE) then
      Response(CONFLICT, StatusBody("error", DuplicateField(e.keyPattern) + " already exists"))
    else if e.name == MONGO_SERVER_ERROR && e.code == Some(DOCUMENT_VALIDATION_CODE) then
      Response(BAD_REQUEST, StatusBody("error", "Validation failed: " + e.message))
    else if e.name == VALIDATION_ERROR then Response(BAD_REQUEST, StatusBody("error", e.message))
    else Response(INTERNAL_SERVER_ERROR, StatusBody("error", if e.message == "" then "Internal server error" else e.message))
  }

  /**
   * An error that is not an exception of the application is answered with
   * `{status: 'error', message}` and one of 409, 400 or 500; the message is
   * never empty unless a ValidationError itself carried an empty one.
   */
  lemma NativeErrorsAnsweredPlainly(e: AppError)
    requires e.Native?
    ensures ErrorMiddleware(e).status in {CONFLICT, BAD_REQUEST, INTERNAL_SERVER_ERROR}
    ensures ErrorMiddleware(e).body.StatusBody? && ErrorMiddleware(e).body.status == "error"
    ensures e.name != VALIDATION_ERROR ==> ErrorMiddleware(e).body.message != ""
  {
    if e.name == MONGO_SERVER_ERROR && e.code == Some(DUPLICATE_KEY_CODE) {
      assert ErrorMiddleware(e).body.message[|DuplicateField(e.keyPattern)|] == ' ';
    } else if e.name == MONGO_SERVER_ERROR && e.code == Some(DOCUMENT_VALIDATION_CODE) {
      assert |ErrorMiddleware(e).body.message| >= |"Validation failed: "|;
    }
  }

  /** Inserting a refresh token that is already stored is reported as a 409 naming the token field. */
  lemma DuplicateTokenIsConflict()
    ensures ErrorMiddleware(DuplicateTokenError()) == Response(CONFLICT, StatusBody("error", "token already exists"))
  {
    assert DuplicateField(DuplicateTokenError().keyPattern) + " already exists" == "token already exists";
  }

  /** An exception raised with a status and message is answered with that status and that message alone. */
  lemma RaisedExceptionAnswered(status: int, message: string)
    ensures ErrorMiddleware(Raise(status, message)) == Response(status, ExceptionBody(message, None, None))
  {
  }
}
