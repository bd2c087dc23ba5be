/** User management: the administrator creates executives and administrators
    and lists them.  Each handler is a function from the `usuarios` table
    before the request to the table after it and the response; bcrypt's
    salt and hash are parameters. */
module UserController {
  import opened Common
  import opened Schema
  import opened Sorting

  /** The `usuarios` table and the next value of its SERIAL id. */
  datatype TablaUsuarios = TablaUsuarios(filas: seq<Usuario>, siguienteId: int)

  predicate EmailEnUso(filas: seq<Usuario>, email: string) {
    exists i :: 0 <= i < |filas| && filas[i].email == email
  }

  /** Ids increase in creation order and stay below the sequence; the
      UNIQUE index on `email` keeps e-mails apart; only an executive is
      attached to a branch. */
  predicate TablaValida(t: TablaUsuarios) {
    && (forall i, j :: 0 <= i < j < |t.filas| ==> t.filas[i].id < t.filas[j].id)
    && (forall i, j :: 0 <= i < j < |t.filas| ==> t.filas[i].email != t.filas[j].email)
    && (forall i :: 0 <= i < |t.filas| ==> t.filas[i].id < t.siguienteId)
    && (forall i :: 0 <= i < |t.filas| && t.filas[i].rol != EjecutivoRole ==> t.filas[i].sucursalId.None?)
  }

  datatype UsuarioRequest = UsuarioRequest(
    nombres: Option<string>,
    apellidoPaterno: Option<string>,
    email: Option<string>,
    password: Option<string>,
    rol: Option<string>,
    sucursalId: Option<int>)

  /** Every field but the branch is present and not empty. */
  predicate CamposCompletos(req: UsuarioRequest) {
    Truthy(req.nombres) && Truthy(req.apellidoPaterno) && Truthy(req.email) &&
    Truthy(req.password) && Truthy(req.rol)
  }

  /** `rol === 'EJECUTIVO' ? sucursal_id : null`. */
  function SucursalAsignada(rol: string, sucursalId: Option<int>): (r: Option<int>)
    ensures r.Some? <==> rol == EjecutivoRole && sucursalId.Some?
    ensures r.Some? ==> r == sucursalId
  {
    if rol == EjecutivoRole then sucursalId else None
  }

  datatype ErrorUsuario = FaltanCampos | EmailDuplicado

  /** `RETURNING id, email, rol`: the password hash is not sent back. */
  datatype UsuarioCreado = UsuarioCreado(id: int, email: string, rol: string)

  datatype RespuestaUsuario = Created201(usuario: UsuarioCreado) | BadRequest400(error: ErrorUsuario)

  /** crearUsuario.  The INSERT draws an id before the UNIQUE index rejects a
      repeated e-mail, so a rejected insert still consumes one. */
  function CrearUsuario(t: TablaUsuarios, req: UsuarioRequest, salt: string, hash: (string, string) -> string)
    : (r: (TablaUsuarios, RespuestaUsuario))
    ensures r.1 == BadRequest400(FaltanCampos) <==> !CamposCompletos(req)
    ensures r.1 == BadRequest400(FaltanCampos) ==> r.0 == t
    ensures r.1 == BadRequest400(EmailDuplicado) <==> CamposCompletos(req) && EmailEnUso(t.filas, req.email.value)
    ensures r.1 == BadRequest400(EmailDuplicado) ==> r.0 == t.(siguienteId := t.siguienteId + 1)
    ensures r.1.Created201? ==>
      && r.1.usuario == UsuarioCreado(t.siguienteId, req.email.value, req.rol.value)
      && r.0 == TablaUsuarios(
        t.filas + [Usuario(t.siguienteId, req.nombres.value, req.apellidoPaterno.value, req.email.value,
                           hash(req.password.value, salt), req.rol.value,
                           SucursalAsignada(req.rol.value, req.sucursalId), true)],
        t.siguienteId + 1)
  {
    if !CamposCompletos(req) then (t, BadRequest400(FaltanCampos))
    else if EmailEnUso(t.filas, req.email.value) then
      (t.(siguienteId := t.siguienteId + 1), BadRequest400(EmailDuplicado))
    else
      var u := Usuario(t.siguienteId, req.nombres.value, req.apellidoPaterno.value, req.email.value,
                       hash(req.password.value, salt), req.rol.value,
                       SucursalAsignada(req.rol.value, req.sucursalId), true);
      (TablaUsuarios(t.filas + [u], t.siguienteId + 1), Created201(UsuarioCreado(u.id, u.email, u.rol)))
  }

  /** Creating a user, successfully or not, keeps the table valid. */
  lemma CrearConservaValida(t: TablaUsuarios, req: UsuarioRequest, salt: string, hash: (string, string) -> string)
    requires TablaValida(t)
    ensures TablaValida(CrearUsuario(t, req, salt, hash).0)
  {
    var r := CrearUsuario(t, req, salt, hash);
    if r.1.Created201? {
      var n := |t.filas|;
      forall i, j | 0 <= i < j < |r.0.filas| ensures r.0.filas[i].email != r.0.filas[j].email {
        if j == n {
          assert r.0.filas[i] == t.filas[i];
          assert !EmailEnUso(t.filas, req.email.value);
        }
      }
    }
  }

  /** What listarUsuarios returns per user: no hash, and the branch by name. */
  datatype UsuarioListado = UsuarioListado(
    id: int,
    nombres: string,
    apellidoPaterno: string,
    email: string,
    rol: string,
    activo: bool,
    sucursalNombre: Option<string>)

  function ClaveId(u: Usuario): SortKey {
    IntKey(u.id)
  }

  function Listado(u: Usuario, sucursales: seq<Sucursal>): UsuarioListado {
    UsuarioListado(u.id, u.nombres, u.apellidoPaterno, u.email, u.rol, u.activo,
                   NombreSucursal(sucursales, u.sucursalId))
  }

  function Listados(us: seq<Usuario>, sucursales: seq<Sucursal>): seq<UsuarioListado> {
    seq(|us|, i requires 0 <= i < |us| => Listado(us[i], sucursales))
  }

  /** listarUsuarios: every user once, `LEFT JOIN sucursales`, `ORDER BY u.id ASC`. */
  function ListarUsuarios(t: TablaUsuarios, sucursales: seq<Sucursal>): (r: seq<UsuarioListado>)
    ensures |r| == |t.filas|
    ensures forall i, j :: 0 <= i < j < |r| ==> r[i].id <= r[j].id
  {
    var orden := SortBy(t.filas, ClaveId, false);
    SortBySorted(t.filas, ClaveId, false);
    assert |multiset(orden)| == |multiset(t.filas)|;
    Listados(orden, sucursales)
  }

  /** On a valid table the listing follows the table row by row, so each
      user appears exactly once, with strictly increasing ids. */
  lemma ListadoEnOrdenDeAlta(t: TablaUsuarios, sucursales: seq<Sucursal>)
    requires TablaValida(t)
    ensures ListarUsuarios(t, sucursales) == Listados(t.filas, sucursales)
    ensures forall i, j :: 0 <= i < j < |t.filas| ==>
      ListarUsuarios(t, sucursales)[i].id < ListarUsuarios(t, sucursales)[j].id
  {
    SortByOfSorted(t.filas, ClaveId, false);
  }

  /** A user who is not an executive is listed without a branch. */
  lemma NoEjecutivoSinSucursal(t: TablaUsuarios, sucursales: seq<Sucursal>, i: int)
    requires TablaValida(t)
    requires 0 <= i < |t.filas| && t.filas[i].rol != EjecutivoRole
    ensures ListarUsuarios(t, sucursales)[i].sucursalNombre == None
  {
    ListadoEnOrdenDeAlta(t, sucursales);
  }
}
