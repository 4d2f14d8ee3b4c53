/** Vocabulary shared by the authentication gate and the route handlers. */
module Api {
  import opened Wrappers

  /** Every error response the API sends; the HTTP status is in the comment. */
  datatype ApiError =
    | MissingFields       // 400: a required body field is absent or empty
    | DuplicateUsername   // 400: the username is already registered
    | InvalidCredentials  // 401: unknown username or wrong password
    | MissingToken        // 401: no usable bearer token in the Authorization header
    | InvalidToken        // 401: the token did not verify
    | NotFound            // 404: no task with this id belongs to the caller

  /** The claims a token carries and the gate attaches to the request as `req.user`. */
  datatype Identity = Identity(id: int, username: string)

  /** JavaScript truthiness of a string field of the request body:
      an absent field (`undefined`) and the empty string are falsy. */
  predicate Truthy(field: Option<string>) {
    field.Some? && field.value != ""
  }
}
