/** The document service's own exceptions (ApiNotFoundException, ApiForbiddenException,
    ApiUnauthorizedException and ApiBadRequestException), each carrying its message. */
module ServiceExceptions {
  datatype ApiError =
    | NotFound(message: string)
    | Forbidden(message: string)
    | Unauthorized(message: string)
    | BadRequest(message: string)
}
