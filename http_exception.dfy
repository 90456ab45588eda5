/**
 * The exception values the core throws (src/core/http-exception.ts) and the
 * other errors that can reach an error handler.
 */
module HttpErrors {
  import opened Wrappers
  import opened Constants

  /** The free-form `error_info` attachment. */
  datatype ErrorInfo = ErrorInfo(detail: string)

  /** One entry of an EntityError's `errors` record: a `msg` plus further keys. */
  datatype FieldError = FieldError(msg: string, extra: map<string, string>)

  /**
   * HttpException and its subclass EntityError.  Both carry `status`,
   * `message` and `error_info`; EntityError adds `errors`.
   */
  datatype HttpException =
    | HttpException(status: int, message: string, errorInfo: Option<ErrorInfo>)
    | EntityError(status: int, message: string, errorInfo: Option<ErrorInfo>, errors: map<string, FieldError>)

  /**
   * Anything an operation can throw: one of the exceptions above, or a
   * plain JavaScript error (a MongoServerError carries `code` and `keyPattern`).
   */
  datatype AppError =
    | Http(exception: HttpException)
    | Native(name: string, message: string, code: Option<int>, keyPattern: seq<string>)

  /** The `new HttpException({status, message, error_info})` constructor. */
  function NewHttpException(status: int, message: string, errorInfo: Option<ErrorInfo>): (e: HttpException)
    ensures e.HttpException?
    ensures e.status == status && e.message == message && e.errorInfo == errorInfo
  {
    HttpException(status, message, errorInfo)
  }

  /**
   * The `new EntityError({message, errors})` constructor: the status is fixed
   * to 422 and an omitted message falls back to USER_MESSAGES.VALIDATION_FAILED.
   */
  function NewEntityError(message: Option<string>, errors: map<string, FieldError>): (e: HttpException)
    ensures e.EntityError?
    ensures e.status == UNPROCESSABLE_ENTITY
    ensures message.Some? ==> e.message == message.value
    ensures message.None? ==> e.message == USER_VALIDATION_FAILED
    ensures e.errors == errors && e.errorInfo == None
  {
    EntityError(UNPROCESSABLE_ENTITY, message.GetOr(USER_VALIDATION_FAILED), None, errors)
  }

  /** The intended positional form `new HttpException(status, message)`. */
  function Raise(status: int, message: string): (e: AppError)
    ensures e.Http? && e.exception == HttpException(status, message, None)
  {
    Http(HttpException(status, message, None))
  }
}
