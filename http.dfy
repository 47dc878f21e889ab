/** What a route sends back: a status code and a body, or a failure status
    with the list of messages the route reports (used by validation
    failures; the wording of other error bodies is not modelled). */
module Http {

  const OK: nat := 200
  const CREATED: nat := 201
  const BAD_REQUEST: nat := 400
  const UNAUTHORIZED: nat := 401
  const NOT_FOUND: nat := 404
  const SERVER_ERROR: nat := 500

  datatype Reply<T> = Ok(code: nat, body: T) | Fail(code: nat, errors: seq<string>)
}
