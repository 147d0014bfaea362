/** What a handler answers: a status code with a JSON body, a message, or nothing. */
module Http {
  import opened Wrappers

  /** A bearer token. The signature is not modelled: a token only carries the identity it was issued for. */
  datatype Token = Token(identity: string)

  /** The body `{message, access_token}` of a successful registration or login. */
  datatype Session = Session(message: string, accessToken: Token)

  datatype Reply<T> =
    | Ok(body: T)                          // 200 with a JSON body
    | Message(message: string)             // 200 with only `{message}`
    | NoContent                            // 204, empty body
    | Unauthorized(message: string)        // 401 with `{message}`
    | NotFound                             // 404 raised by `get_or_404`
    | ServerError(detail: Option<string>)  // 500; `None` when an exception escapes the handler
}
