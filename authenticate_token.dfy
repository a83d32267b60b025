/** The route hook that guards protected routes
    (src/hooks/authenticateToken.ts): a three-way decision on the
    `Authorization` header. `jwt.verify` with the server's secret is a
    parameter that says whether a token passes (signature and expiry). */
module AuthenticateToken {
  import opened Common
  import opened Token

  /** What the hook does with a request: answer it with a status and a message,
      or call `done` so that the route's handler runs. */
  datatype Decision = Reply(status: nat, message: string) | Done

  const TokenMissing := "Not authorized for this route - token missing!"
  const NotCorrectJwt := "Not correct JWT!"

  /** `authHeader && authHeader.split(" ")[1]`, with every falsy outcome
      (no header, an empty header, no second piece, an empty second piece)
      read as no token. */
  function PresentedToken(header: Option<string>): (t: Option<string>)
    ensures t.Some? <==> header.Some? && SecondField(header.value).Some? && SecondField(header.value).value != ""
    ensures t.Some? ==> t == SecondField(header.value)
  {
    if header.None? || header.value == "" then None
    else
      match SecondField(header.value)
      case None => None
      case Some(token) => if token == "" then None else Some(token)
  }

  /** `authenticateToken`: 401 when there is no token, 403 when the token does
      not verify, and `done` exactly when a non-empty token verifies; every
      request gets exactly one of the three. */
  function Authenticate(header: Option<string>, verify: string -> bool): (d: Decision)
    ensures d == Reply(401, TokenMissing) || d == Reply(403, NotCorrectJwt) || d == Done
    ensures d == Reply(401, TokenMissing) <==> PresentedToken(header).None?
    ensures d == Reply(403, NotCorrectJwt) <==> PresentedToken(header).Some? && !verify(PresentedToken(header).value)
    ensures d == Done <==> PresentedToken(header).Some? && verify(PresentedToken(header).value)
  {
    match PresentedToken(header)
    case None => Reply(401, TokenMissing)
    case Some(token) => if verify(token) then Done else Reply(403, NotCorrectJwt)
  }

  /** A missing header, "Bearer", "Bearer " and a header with a double space
      all get the same 401, whatever `verify` says. */
  lemma MissingTokenExamples(verify: string -> bool)
    ensures Authenticate(None, verify) == Reply(401, TokenMissing)
    ensures Authenticate(Some("Bearer"), verify) == Reply(401, TokenMissing)
    ensures Authenticate(Some("Bearer "), verify) == Reply(401, TokenMissing)
    ensures Authenticate(Some("Bearer  abc"), verify) == Reply(401, TokenMissing)
  {
    BareSchemeExamples();
    DoubleSpaceExample();
  }

  /** When the hook lets a request through, the header is present, so the
      verified decoder may be called, and both decoders decode exactly the
      token that was verified. */
  lemma DoneMeansVerifiedTokenIsDecoded<T>(header: Option<string>, verify: string -> bool, decode: string -> Option<T>)
    requires Authenticate(header, verify) == Done
    ensures header.Some?
    ensures SecondField(header.value).Some? && verify(SecondField(header.value).value)
    ensures DecodeVerifiedTokenPayload(header, decode) == decode(SecondField(header.value).value)
    ensures DecodeUnsafeTokenPayload(header, decode) == DecodeVerifiedTokenPayload(header, decode)
  {
    DecodersAgree(header, decode);
  }
}
