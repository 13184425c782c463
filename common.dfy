/** Outcomes of the marketplace's request handlers: a value, or one of the
    HTTP errors the server raises, with the detail message it sends back. */
module Common {

  datatype Option<+T> = None | Some(value: T)

  /** The errors a handler can end with. `Unprocessable` is the rejection of a
      request body by its schema, which happens before the handler runs. */
  datatype Error =
    | BadRequest(detail: string)
    | Unauthorized(detail: string)
    | Forbidden(detail: string)
    | NotFound(detail: string)
    | Unprocessable
  {
    /** The HTTP status code the error is reported with. */
    function Status(): int {
      match this
      case BadRequest(_) => 400
      case Unauthorized(_) => 401
      case Forbidden(_) => 403
      case NotFound(_) => 404
      case Unprocessable => 422
    }
  }

  datatype Result<+T> = Ok(value: T) | Err(error: Error)
}
