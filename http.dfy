/** HTTP status codes the handlers answer with. */
module Http {
  const Ok := 200
  const Created := 201
  const BadRequest := 400
  const Forbidden := 403
  const NotFound := 404
  const TooManyRequests := 429
  /** What the error handler answers when a handler throws (for example a
      TypeError from calling toString on an undefined reference). */
  const ServerError := 500
}
