/** The authentication gate in front of every protected route: it takes the
    token from the `Authorization` header, with or without its `Bearer `
    prefix, and lets the request through with the token's claims as the
    current user when the token verifies. */
module AuthMiddleware {
  import opened Common
  import opened Schema

  const BearerPrefix: string := "Bearer "

  predicate TienePrefijo(header: string) {
    |header| >= |BearerPrefix| && header[..|BearerPrefix|] == BearerPrefix
  }

  /** `startsWith('Bearer ') ? slice(7) : header`: with the prefix, the token
      is what follows it; without it, the token is the whole header. */
  function ExtraerToken(header: string): (token: string)
    ensures TienePrefijo(header) ==> BearerPrefix + token == header && |token| == |header| - 7
    ensures !TienePrefijo(header) ==> token == header
  {
    if TienePrefijo(header) then header[7..] else header
  }

  /** Putting the prefix in front of a token and extracting it gives the token back. */
  lemma ExtraerConPrefijo(token: string)
    ensures ExtraerToken(BearerPrefix + token) == token
  {
    assert (BearerPrefix + token)[..7] == BearerPrefix;
  }

  datatype ResultadoAuth =
    | SinToken401
    | TokenInvalido401
    | Siguiente(user: Claims)

  /** The middleware, with `jwt.verify` under the server's secret and clock
      as the function `verify` (None when the signature or expiry fails).
      `Siguiente` is the single call of `next()` with `req.user` set. */
  function Autenticar(header: Option<string>, verify: string -> Option<Claims>): (r: ResultadoAuth)
    ensures r == SinToken401 <==> !Truthy(header)
    ensures r == TokenInvalido401 <==> Truthy(header) && verify(ExtraerToken(header.value)).None?
    ensures r.Siguiente? ==> Truthy(header) && Some(r.user) == verify(ExtraerToken(header.value))
  {
    if !Truthy(header) then SinToken401
    else
      match verify(ExtraerToken(header.value))
      case None => TokenInvalido401
      case Some(claims) => Siguiente(claims)
  }

  /** A token the verifier accepts lets its own claims through when it is sent
      as `Bearer <token>`, and also when it is sent bare (if it is not empty
      and does not itself start with the prefix). */
  lemma TokenFirmadoPasa(token: string, claims: Claims, verify: string -> Option<Claims>)
    requires verify(token) == Some(claims)
    ensures Autenticar(Some(BearerPrefix + token), verify) == Siguiente(claims)
    ensures token != "" && !TienePrefijo(token) ==> Autenticar(Some(token), verify) == Siguiente(claims)
  {
    ExtraerConPrefijo(token);
  }
}
