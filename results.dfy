/** Optional values and the HTTP outcomes of the request handlers. */
module Results {

  datatype Option<+T> = None | Some(value: T)

  /** The error statuses the handlers answer with: 400, 403 and 404. */
  datatype Status = BadRequest | Forbidden | NotFound

  /** A handler's answer: a JSON payload, or an error status. */
  datatype Result<+T> = Ok(value: T) | Err(status: Status)
}
