/** The role gate of the administration routes, and the two gates chained as
    those routes mount them (authentication first, then the role). */
module AdminMiddleware {
  import opened Common
  import opened Schema
  import opened AuthMiddleware

  datatype ResultadoAdmin = Pasa | Prohibido403

  /** `req.user && req.user.rol === 'ADMIN'`: exactly one of `next()` and 403. */
  function RequiereAdmin(user: Option<Claims>): (r: ResultadoAdmin)
    ensures r == Pasa <==> user.Some? && user.value.rol == AdminRole
    ensures r == Prohibido403 <==> user.None? || user.value.rol != AdminRole
  {
    if user.Some? && user.value.rol == AdminRole then Pasa else Prohibido403
  }

  datatype ResultadoCadena = Rechazo401 | Rechazo403 | Handler(user: Claims)

  /** `authMiddleware, adminMiddleware` in front of a handler. */
  function CadenaAdmin(header: Option<string>, verify: string -> Option<Claims>): ResultadoCadena {
    match Autenticar(header, verify)
    case SinToken401 => Rechazo401
    case TokenInvalido401 => Rechazo401
    case Siguiente(user) => if RequiereAdmin(Some(user)) == Pasa then Handler(user) else Rechazo403
  }

  /** The handler behind both gates runs exactly for a verified token of an
      ADMIN; a verified token of any other role (an EJECUTIVO among them) is
      answered 403, and a missing or bad token 401. */
  lemma CadenaAdminDecide(header: Option<string>, verify: string -> Option<Claims>)
    ensures var r := CadenaAdmin(header, verify);
      && (r.Handler? <==>
            Truthy(header) && verify(ExtraerToken(header.value)).Some? &&
            verify(ExtraerToken(header.value)).value.rol == AdminRole)
      && (r.Handler? ==> Some(r.user) == verify(ExtraerToken(header.value)))
      && (r == Rechazo403 <==>
            Truthy(header) && verify(ExtraerToken(header.value)).Some? &&
            verify(ExtraerToken(header.value)).value.rol != AdminRole)
      && (r == Rechazo401 <==> !Truthy(header) || verify(ExtraerToken(header.value)).None?)
  {
  }

  /** An executive never gets past the role gate. */
  lemma EjecutivoProhibido(user: Claims)
    requires user.rol == EjecutivoRole
    ensures RequiereAdmin(Some(user)) == Prohibido403
  {
  }
}
