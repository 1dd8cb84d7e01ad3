/** The document service's exception-to-response mapping
    (services/document-service/.../api/ApiExceptionHandler.java). */
module ApiExceptionHandler {
  import opened ServiceExceptions

  /** The exceptions the handler takes: the service's own, and the three framework validation
      failures (an invalid request body, a violated parameter constraint, a path variable of the
      wrong type). */
  datatype HandledException =
    | Raised(error: ApiError)
    | ArgumentNotValid
    | ConstraintViolation
    | TypeMismatch

  datatype ErrorResponse = ErrorResponse(status: int, message: string)

  const InvalidRequestMessage := "Invalid request"

  /** 404, 403 and 401 carry the exception's own message; every bad request, the service's own or
      a framework validation failure, is a 400 with the fixed "Invalid request". */
  function Handle(e: HandledException): (r: ErrorResponse)
    ensures r.status == 404 <==> e.Raised? && e.error.NotFound?
    ensures r.status == 403 <==> e.Raised? && e.error.Forbidden?
    ensures r.status == 401 <==> e.Raised? && e.error.Unauthorized?
    ensures r.status == 400 <==> !e.Raised? || e.error.BadRequest?
    ensures r.status != 400 ==> e.Raised? && r.message == e.error.message
    ensures r.status == 400 ==> r.message == InvalidRequestMessage
  {
    match e
    case Raised(NotFound(message)) => ErrorResponse(404, message)
    case Raised(Forbidden(message)) => ErrorResponse(403, message)
    case Raised(Unauthorized(message)) => ErrorResponse(401, message)
    case _ => ErrorResponse(400, InvalidRequestMessage)
  }

  /** A bad request's own message never reaches the client. */
  lemma BadRequestMessageDiscarded(m1: string, m2: string)
    ensures Handle(Raised(BadRequest(m1))) == Handle(Raised(BadRequest(m2))) == Handle(ArgumentNotValid)
  {
  }
}
