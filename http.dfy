/**
 * HTTP outcomes of the HR endpoints. Every failure the endpoints raise is an
 * HTTPException with a status code and a detail string; success carries the
 * response body.
 */
module Http {

  const BAD_REQUEST: int := 400
  const FORBIDDEN: int := 403
  const NOT_FOUND: int := 404
  /** An uncaught Python exception inside a handler surfaces as a 500. */
  const INTERNAL_SERVER_ERROR: int := 500

  datatype HttpError = HttpError(status: int, detail: string)

  datatype Result<T> = Ok(value: T) | Err(error: HttpError)

  datatype Option<T> = None | Some(value: T)
}
