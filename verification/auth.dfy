/** The `auth` middleware: bearer-token extraction and verification. */
module Auth {
  import opened Wrappers
  import opened Api

  /** The scheme prefix of the Authorization header, seven characters long. */
  const Prefix: string := "Bearer "

  /** The token of a `Bearer` header: everything after the prefix, or nothing
      when the header does not start with it. */
  function BearerToken(header: string): (token: Option<string>)
    ensures forall t {:trigger Some(t)} :: token == Some(t) <==> header == Prefix + t
    ensures token.None? <==> !(Prefix <= header)
  {
    if Prefix <= header then
      assert header == Prefix + header[|Prefix|..];
      Some(header[|Prefix|..])
    else
      None
  }

  /** A header made of the prefix and a token gives back exactly that token. */
  lemma BearerRoundTrip(t: string)
    ensures BearerToken(Prefix + t) == Some(t)
  {
  }

  /** The gate run before every task route. `authorization` is the raw header
      (absent when the client sent none); `verify` stands for the signature and
      expiry check of the token library, a partial map from tokens to claims. */
  function Authenticate(authorization: Option<string>, verify: string -> Option<Identity>): (r: Result<Identity, ApiError>)
    ensures r == Failure(MissingToken) <==> !(authorization.Some? && Prefix < authorization.value)
    ensures r == Failure(InvalidToken) <==>
              authorization.Some? && Prefix < authorization.value && verify(authorization.value[|Prefix|..]).None?
    ensures r.Failure? ==> r.error == MissingToken || r.error == InvalidToken
    ensures r.Success? ==> authorization.Some? && Prefix < authorization.value &&
                           verify(authorization.value[|Prefix|..]) == Some(r.value)
  {
    var token := BearerToken(authorization.GetOr(""));
    if token.None? || token.value == "" then
      Failure(MissingToken)
    else
      match verify(token.value)
      case None => Failure(InvalidToken)
      case Some(identity) => Success(identity)
  }

  /** A request without a usable token is refused before `verify` is consulted:
      the answer does not depend on the verifier at all. */
  lemma MissingTokenIgnoresVerifier(authorization: Option<string>, v1: string -> Option<Identity>, v2: string -> Option<Identity>)
    requires Authenticate(authorization, v1) == Failure(MissingToken)
    ensures Authenticate(authorization, v2) == Failure(MissingToken)
  {
  }

  /** A token that the verifier maps to some claims, sent as `Bearer <token>`,
      authenticates the request as exactly those claims. */
  lemma IssuedTokenAuthenticates(token: string, claims: Identity, verify: string -> Option<Identity>)
    requires token != ""
    requires verify(token) == Some(claims)
    ensures Authenticate(Some(Prefix + token), verify) == Success(claims)
  {
    BearerRoundTrip(token);
  }
}
