/** HTTP status codes the two controllers answer with, and the status/payload pair that
    stands in for a response entity. */
module Http {

  const OK: int := 200
  const CREATED: int := 201
  const BAD_REQUEST: int := 400
  const NOT_FOUND: int := 404
  const CONFLICT: int := 409
  const INTERNAL_SERVER_ERROR: int := 500

  /** A response: a status code and an abstract payload. */
  datatype Response<B> = Response(status: int, body: B)
}
