/**
 * The error value every handler throws: an HTTP status and a message. Errors of
 * any other kind reach the outer error handler, which answers 500.
 */
module ApiErrors {
  datatype HttpError = HttpError(status: nat, message: string)

  const InternalError: nat := 500
}
