/** The rows of the application's tables and the payload of its tokens. */
module Schema {
  import opened Common

  /** A row of `metales`; its id is the key it is stored under.  Prices are
      whole currency units: every writer rounds them with Math.round. */
  datatype Metal = Metal(nombre: string, valorPorKilo: int, updatedAt: Timestamp)

  /** A row of `transacciones`: the header of one purchase. */
  datatype Transaccion = Transaccion(
    id: int,
    sucursalId: Option<int>,
    ejecutivoId: int,
    clienteNombre: string,
    clienteRutDni: Option<string>,
    totalPagar: real,
    fechaHora: Timestamp)

  /** A row of `transaccion_detalles`: one line of a purchase, with the price
      per kilo that was applied when it was recorded. */
  datatype Detalle = Detalle(
    transaccionId: int,
    metalId: int,
    pesoKilos: real,
    valorKiloAplicado: real,
    subtotal: real)

  /** A row of `usuarios`. */
  datatype Usuario = Usuario(
    id: int,
    nombres: string,
    apellidoPaterno: string,
    email: string,
    passwordHash: string,
    rol: string,
    sucursalId: Option<int>,
    activo: bool)

  /** A row of `sucursales`.  Both columns hold whatever the last write
      supplied, `null` included. */
  datatype Sucursal = Sucursal(id: int, nombre: Option<string>, direccion: Option<string>)

  /** What a signed token carries and what the auth middleware puts on `req.user`. */
  datatype Claims = Claims(id: int, email: string, rol: string, sucursalId: Option<int>)

  /** A value bound to a numbered placeholder `$n` of a query; `Dia` is a
      calendar date sent as a `YYYY-MM-DD` string, counted in days from the epoch. */
  datatype SqlValor = Texto(t: string) | Entero(n: int) | Dia(d: int)

  /** The branch name a `LEFT JOIN sucursales s ON x.sucursal_id = s.id`
      yields: null when the row has no branch or the branch does not exist,
      and the stored name (itself possibly null) otherwise. */
  function NombreSucursal(sucursales: seq<Sucursal>, id: Option<int>): Option<string> {
    if id.None? || sucursales == [] then None
    else if sucursales[0].id == id.value then sucursales[0].nombre
    else NombreSucursal(sucursales[1..], id)
  }

  const AdminRole: string := "ADMIN"
  const EjecutivoRole: string := "EJECUTIVO"
}
