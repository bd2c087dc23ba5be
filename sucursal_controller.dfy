/** Branch management: listing, creating and renaming the rows of
    `sucursales`.  Each handler is a function from the table before the
    request to the table after it and the response. */
module SucursalController {
  import opened Common
  import opened Schema
  import opened Sorting

  /** The `sucursales` table and the next value of its SERIAL id. */
  datatype TablaSucursales = TablaSucursales(filas: seq<Sucursal>, siguienteId: int)

  /** Ids are handed out in increasing order and never reused. */
  predicate TablaValida(t: TablaSucursales) {
    && (forall i, j :: 0 <= i < j < |t.filas| ==> t.filas[i].id < t.filas[j].id)
    && (forall i :: 0 <= i < |t.filas| ==> t.filas[i].id < t.siguienteId)
  }

  datatype RespuestaSucursal =
    | Created201(sucursal: Sucursal)
    | Ok200(sucursal: Sucursal)
    | BadRequest400
    | NotFound404

  function ClaveId(s: Sucursal): SortKey {
    IntKey(s.id)
  }

  /** listarSucursales: `SELECT * FROM sucursales ORDER BY id ASC`. */
  function ListarSucursales(t: TablaSucursales): (r: seq<Sucursal>)
    ensures multiset(r) == multiset(t.filas)
    ensures forall i, j :: 0 <= i < j < |r| ==> r[i].id <= r[j].id
  {
    SortBySorted(t.filas, ClaveId, false);
    SortBy(t.filas, ClaveId, false)
  }

  /** On a valid table the listing is the table itself, in creation order. */
  lemma ListadoEnOrdenDeAlta(t: TablaSucursales)
    requires TablaValida(t)
    ensures ListarSucursales(t) == t.filas
  {
    SortByOfSorted(t.filas, ClaveId, false);
  }

  /** crearSucursal: both fields are required (present and not empty); the
      new row gets the next id and is returned with 201. */
  function CrearSucursal(t: TablaSucursales, nombre: Option<string>, direccion: Option<string>)
    : (r: (TablaSucursales, RespuestaSucursal))
    ensures r.1 == BadRequest400 <==> !Truthy(nombre) || !Truthy(direccion)
    ensures r.1 == BadRequest400 ==> r.0 == t
    ensures r.1 != BadRequest400 ==>
      && r.1 == Created201(Sucursal(t.siguienteId, nombre, direccion))
      && r.0 == TablaSucursales(t.filas + [r.1.sucursal], t.siguienteId + 1)
  {
    if !Truthy(nombre) || !Truthy(direccion) then (t, BadRequest400)
    else
      var fila := Sucursal(t.siguienteId, nombre, direccion);
      (TablaSucursales(t.filas + [fila], t.siguienteId + 1), Created201(fila))
  }

  lemma CrearConservaValida(t: TablaSucursales, nombre: Option<string>, direccion: Option<string>)
    requires TablaValida(t)
    ensures TablaValida(CrearSucursal(t, nombre, direccion).0)
  {
  }

  predicate Existe(filas: seq<Sucursal>, id: int) {
    exists k :: 0 <= k < |filas| && filas[k].id == id
  }

  /** `UPDATE sucursales SET nombre = $1, direccion = $2 WHERE id = $3`. */
  function Renombradas(filas: seq<Sucursal>, id: int, nombre: Option<string>, direccion: Option<string>)
    : seq<Sucursal>
  {
    seq(|filas|, k requires 0 <= k < |filas| =>
      if filas[k].id == id then Sucursal(id, nombre, direccion) else filas[k])
  }

  /** actualizarSucursal: no field is validated, so an absent one is stored as
      null; an id matching no row gives 404 and changes nothing; otherwise the
      matching row, and only it, takes the two given values and is returned. */
  function ActualizarSucursal(t: TablaSucursales, id: int, nombre: Option<string>, direccion: Option<string>)
    : (r: (TablaSucursales, RespuestaSucursal))
    ensures r.1 == NotFound404 <==> !Existe(t.filas, id)
    ensures r.1 == NotFound404 ==> r.0 == t
    ensures r.1 != NotFound404 ==>
      && r.1 == Ok200(Sucursal(id, nombre, direccion))
      && r.0.siguienteId == t.siguienteId
      && |r.0.filas| == |t.filas|
      && (forall k :: 0 <= k < |t.filas| && t.filas[k].id != id ==> r.0.filas[k] == t.filas[k])
      && (forall k :: 0 <= k < |t.filas| && t.filas[k].id == id ==> r.0.filas[k] == r.1.sucursal)
  {
    if !Existe(t.filas, id) then (t, NotFound404)
    else (t.(filas := Renombradas(t.filas, id, nombre, direccion)), Ok200(Sucursal(id, nombre, direccion)))
  }

  lemma ActualizarConservaValida(t: TablaSucursales, id: int, nombre: Option<string>, direccion: Option<string>)
    requires TablaValida(t)
    ensures TablaValida(ActualizarSucursal(t, id, nombre, direccion).0)
  {
  }

  /** Sending the same update twice leaves the table as sending it once. */
  lemma ActualizarIdempotente(t: TablaSucursales, id: int, nombre: Option<string>, direccion: Option<string>)
    ensures var u := ActualizarSucursal(t, id, nombre, direccion);
      ActualizarSucursal(u.0, id, nombre, direccion) == u
  {
    var u := ActualizarSucursal(t, id, nombre, direccion);
    if Existe(t.filas, id) {
      var k :| 0 <= k < |t.filas| && t.filas[k].id == id;
      assert u.0.filas[k].id == id;
      assert Renombradas(u.0.filas, id, nombre, direccion) == u.0.filas;
    }
  }

  /** After an update, the listing shows the branch under the new values. */
  lemma ActualizadaEnListado(t: TablaSucursales, id: int, nombre: Option<string>, direccion: Option<string>)
    requires Existe(t.filas, id)
    ensures Sucursal(id, nombre, direccion) in ListarSucursales(ActualizarSucursal(t, id, nombre, direccion).0)
  {
    var u := ActualizarSucursal(t, id, nombre, direccion).0;
    var k :| 0 <= k < |t.filas| && t.filas[k].id == id;
    assert u.filas[k] == Sucursal(id, nombre, direccion);
    assert Sucursal(id, nombre, direccion) in multiset(u.filas);
  }
}
