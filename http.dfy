/** What a request can come back with, as the components see it through
    axios: a reply body, or an error that carries a response, only a
    request, or neither. */
module Http {
  import opened Values

  /** The fields of an error response body the components read. */
  datatype ErrorBody = ErrorBody(message: Option<string>, details: Option<string>)

  /** An axios error. `message` is the error's own `err.message`. */
  datatype Failure =
    | HttpError(status: int, body: ErrorBody, statusText: string, message: string)  // err.response is set
    | NoResponse(message: string)                                                   // only err.request is set
    | Unexpected(message: string)                                                   // neither is set

  datatype Reply<T> = Ok(data: T) | Err(failure: Failure)
}
