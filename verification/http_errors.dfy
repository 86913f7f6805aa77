/** The Nest HTTP exceptions the services raise, as the status and message
  * the client receives. */
module HttpErrors {

  datatype HttpError = HttpError(status: int, message: string)

  function BadRequest(message: string): HttpError { HttpError(400, message) }

  function Unauthorized(message: string): HttpError { HttpError(401, message) }

  function Forbidden(message: string): HttpError { HttpError(403, message) }

  function NotFound(message: string): HttpError { HttpError(404, message) }
}
