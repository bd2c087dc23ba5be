/** Login: checks an e-mail and password against `usuarios` and hands out a
    signed token good for eight hours.  bcrypt's comparison and the JWT
    signer (with its secret) are parameters. */
module AuthController {
  import opened Common
  import opened Schema
  import opened AuthMiddleware
  import opened AdminMiddleware
  import opened UserController

  /** `expiresIn: '8h'`, in seconds. */
  const DuracionToken: int := 8 * 60 * 60

  /** The user as the login response shows it: every column but the hash. */
  datatype UsuarioPublico = UsuarioPublico(
    id: int,
    nombres: string,
    apellidoPaterno: string,
    email: string,
    rol: string,
    sucursalId: Option<int>)

  datatype RespuestaLogin =
    | FaltanCredenciales400
    | CredencialesInvalidas401
    | UsuarioInactivo403
    | Ok200(token: string, usuario: UsuarioPublico)

  /** `SELECT * FROM usuarios WHERE email = $1` and its first row. */
  function BuscarPorEmail(filas: seq<Usuario>, email: string): (r: Option<Usuario>)
    ensures r.None? <==> !EmailEnUso(filas, email)
    ensures r.Some? ==> r.value in filas && r.value.email == email
  {
    if filas == [] then None
    else if filas[0].email == email then Some(filas[0])
    else
      var r := BuscarPorEmail(filas[1..], email);
      assert EmailEnUso(filas, email) ==> EmailEnUso(filas[1..], email) by {
        if EmailEnUso(filas, email) {
          var i :| 0 <= i < |filas| && filas[i].email == email;
          assert filas[1..][i - 1] == filas[i];
        }
      }
      assert EmailEnUso(filas[1..], email) ==> EmailEnUso(filas, email) by {
        if EmailEnUso(filas[1..], email) {
          var i :| 0 <= i < |filas[1..]| && filas[1..][i].email == email;
          assert filas[i + 1] == filas[1..][i];
        }
      }
      r
  }

  /** The token payload `{id, email, rol, sucursal_id}`. */
  function ClaimsDe(u: Usuario): Claims {
    Claims(u.id, u.email, u.rol, u.sucursalId)
  }

  function Publico(u: Usuario): UsuarioPublico {
    UsuarioPublico(u.id, u.nombres, u.apellidoPaterno, u.email, u.rol, u.sucursalId)
  }

  /** login.  The checks run in order: both fields present, a user with that
      e-mail, the user active, the password matching.  An unknown e-mail and a
      wrong password get the same 401, and an inactive user gets 403 whatever
      the password. */
  function Login(
    filas: seq<Usuario>, email: Option<string>, password: Option<string>,
    compare: (string, string) -> bool, sign: (Claims, int) -> string): (r: RespuestaLogin)
    ensures r == FaltanCredenciales400 <==> !Truthy(email) || !Truthy(password)
    ensures r == UsuarioInactivo403 <==>
      Truthy(email) && Truthy(password) &&
      BuscarPorEmail(filas, email.value).Some? && !BuscarPorEmail(filas, email.value).value.activo
    ensures r == CredencialesInvalidas401 <==>
      Truthy(email) && Truthy(password) &&
      (!EmailEnUso(filas, email.value) ||
       (BuscarPorEmail(filas, email.value).value.activo &&
        !compare(password.value, BuscarPorEmail(filas, email.value).value.passwordHash)))
    ensures r.Ok200? ==>
      exists u :: u in filas && u.email == email.value && u.activo && compare(password.value, u.passwordHash) &&
        r == Ok200(sign(ClaimsDe(u), DuracionToken), Publico(u))
  {
    if !Truthy(email) || !Truthy(password) then FaltanCredenciales400
    else
      match BuscarPorEmail(filas, email.value)
      case None => CredencialesInvalidas401
      case Some(u) =>
        if !u.activo then UsuarioInactivo403
        else if !compare(password.value, u.passwordHash) then CredencialesInvalidas401
        else Ok200(sign(ClaimsDe(u), DuracionToken), Publico(u))
  }

  /** With a verifier that accepts, within its lifetime, every token the
      signer issues, the token a login returns authenticates as that same
      user, and gets through the administration routes exactly when the
      user is an administrator. */
  lemma LoginLuegoAutentica(
    filas: seq<Usuario>, email: Option<string>, password: Option<string>,
    compare: (string, string) -> bool, sign: (Claims, int) -> string, verify: string -> Option<Claims>)
    requires forall c :: verify(sign(c, DuracionToken)) == Some(c)
    requires Login(filas, email, password, compare, sign).Ok200?
    ensures var r := Login(filas, email, password, compare, sign);
      && Autenticar(Some(BearerPrefix + r.token), verify) ==
           Siguiente(Claims(r.usuario.id, r.usuario.email, r.usuario.rol, r.usuario.sucursalId))
      && (CadenaAdmin(Some(BearerPrefix + r.token), verify).Handler? <==> r.usuario.rol == AdminRole)
  {
    var r := Login(filas, email, password, compare, sign);
    var u := BuscarPorEmail(filas, email.value).value;
    assert r.token == sign(ClaimsDe(u), DuracionToken);
    TokenFirmadoPasa(r.token, ClaimsDe(u), verify);
  }

  /** A user an administrator has just created can log in with the e-mail
      and password given, when bcrypt's comparison accepts every hash of the
      password it is compared with; the login shows the new id and role. */
  lemma AltaLuegoLogin(
    t: TablaUsuarios, req: UsuarioRequest, salt: string, hash: (string, string) -> string,
    compare: (string, string) -> bool, sign: (Claims, int) -> string)
    requires forall p, s :: compare(p, hash(p, s))
    requires CrearUsuario(t, req, salt, hash).1.Created201?
    ensures var nueva := CrearUsuario(t, req, salt, hash).0;
      var r := Login(nueva.filas, req.email, req.password, compare, sign);
      && r.Ok200?
      && r.usuario.id == t.siguienteId
      && r.usuario.rol == req.rol.value
      && r.usuario.sucursalId == SucursalAsignada(req.rol.value, req.sucursalId)
  {
    var nueva := CrearUsuario(t, req, salt, hash).0;
    var u := nueva.filas[|t.filas|];
    assert !EmailEnUso(t.filas, req.email.value);
    BuscarTrasAlta(t.filas, u, req.email.value);
    assert compare(req.password.value, hash(req.password.value, salt));
  }

  /** An e-mail not yet in use is found, after an insert, in the new row. */
  lemma {:induction false} BuscarTrasAlta(filas: seq<Usuario>, u: Usuario, email: string)
    requires !EmailEnUso(filas, email) && u.email == email
    ensures BuscarPorEmail(filas + [u], email) == Some(u)
  {
    if filas == [] {
    } else {
      assert (filas + [u])[1..] == filas[1..] + [u];
      assert !EmailEnUso(filas[1..], email) by {
        forall i | 0 <= i < |filas[1..]| ensures filas[1..][i].email != email {
          assert filas[1..][i] == filas[i + 1];
        }
      }
      assert filas[0].email != email;
      BuscarTrasAlta(filas[1..], u, email);
    }
  }
}
