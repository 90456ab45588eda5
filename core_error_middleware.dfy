/**
 * The older handler of src/core/error-middleware.ts: an HttpException keeps
 * its status and message, anything else is a bare 500.
 */
module CoreErrorHandling {
  import opened Constants
  import opened HttpErrors
  import opened ErrorHandling

  const INTERNAL_SERVER_ERROR_MESSAGE := "Internal Server Error"

  /** `errorMiddleware(err, req, res, next)`. */
  function CoreErrorMiddleware(e: AppError): (r: Response)
    ensures r.body.StatusBody? && r.body.status == "error"
    ensures e.Http? ==> r.status == e.exception.status && r.body.message == e.exception.message
    ensures e.Native? ==> r.status == INTERNAL_SERVER_ERROR && r.body.message == INTERNAL_SERVER_ERROR_MESSAGE
  {
    if e.Http? then Response(e.exception.status, StatusBody("error", e.exception.message))
    else Response(INTERNAL_SERVER_ERROR, StatusBody("error", INTERNAL_SERVER_ERROR_MESSAGE))
  }

  /** The message of an error that is not an HttpException never reaches the client: all such errors look alike. */
  lemma NativeMessagesHidden(e1: AppError, e2: AppError)
    requires e1.Native? && e2.Native?
    ensures CoreErrorMiddleware(e1) == CoreErrorMiddleware(e2)
  {
  }

  /**
   * The two handlers agree on the status of an HttpException and on its
   * message; they differ in the shape of the body.
   */
  lemma HandlersAgreeOnExceptions(e: AppError)
    requires e.Http?
    ensures CoreErrorMiddleware(e).status == ErrorMiddleware(e).status
    ensures CoreErrorMiddleware(e).body.message == ErrorMiddleware(e).body.message
  {
  }
}
