/** crearTransaccion: a purchase request is validated, each of its lines is
    priced at its metal's catalog price, and one header plus one line per
    requested metal are recorded as a single unit of work (BEGIN ... COMMIT),
    or nothing is recorded at all (ROLLBACK). */
module TransaccionController {
  import opened Common
  import opened Schema
  import opened Database

  /** One element of the body's `metales` array. */
  datatype LineaPedida = LineaPedida(metalId: Option<int>, pesoKilos: Option<real>)

  /** The request body.  `metales` is None when it is missing or not an
      array; the acting user never comes from the body. */
  datatype CompraRequest = CompraRequest(
    clienteNombre: Option<string>,
    clienteRutDni: Option<string>,
    metales: Option<seq<LineaPedida>>)

  /** A line that passed validation. */
  datatype Linea = Linea(metalId: int, pesoKilos: real)

  /** A priced line before it is stored (an element of `detallesParaInsertar`). */
  datatype DetalleCalculado = DetalleCalculado(metalId: int, pesoKilos: real, valorKiloAplicado: real, subtotal: real)

  /** The statements sent after the connection is taken; any of them may fail. */
  datatype Paso = Begin | LeerConfiguracion | LeerPrecios | InsertarCabecera | InsertarDetalles | Commit

  datatype ErrorPedido = FaltanDatos | LineaInvalida(linea: LineaPedida)
  datatype FalloServidor = MetalesInexistentes | FalloBaseDatos(paso: Paso)

  datatype Cliente = Cliente(nombre: string, rut: Option<string>)
  datatype LineaVoucher = LineaVoucher(metal: string, pesoKilos: real, precioUnitario: real, subtotal: real)
  datatype Voucher = Voucher(
    logoUrl: Option<string>,
    correlativo: int,
    fecha: Timestamp,
    sucursalId: Option<int>,
    ejecutivoId: int,
    cliente: Cliente,
    totalPagado: real,
    detalles: seq<LineaVoucher>)

  datatype CompraResponse =
    | BadRequest400(error: ErrorPedido)
    | ServerError500(detalle: FalloServidor)
    | Created201(voucher: Voucher)

  // ---------------------------------------------------------------- validation

  /** A line is rejected when its metal id is missing or 0, or its weight is
      missing, 0 or negative. */
  predicate LineaValida(l: LineaPedida) {
    l.metalId.Some? && l.metalId.value != 0 && l.pesoKilos.Some? && l.pesoKilos.value > 0.0
  }

  predicate CabeceraPresente(req: CompraRequest) {
    Truthy(req.clienteNombre) && req.metales.Some? && |req.metales.value| > 0
  }

  predicate PedidoValido(req: CompraRequest) {
    && CabeceraPresente(req)
    && forall i :: 0 <= i < |req.metales.value| ==> LineaValida(req.metales.value[i])
  }

  /** The validation loop: the index of the first rejected line, if any. */
  method PrimeraLineaInvalida(pedidas: seq<LineaPedida>) returns (mala: Option<nat>)
    ensures mala.None? <==> forall i :: 0 <= i < |pedidas| ==> LineaValida(pedidas[i])
    ensures mala.Some? ==>
      && mala.value < |pedidas|
      && !LineaValida(pedidas[mala.value])
      && forall i :: 0 <= i < mala.value ==> LineaValida(pedidas[i])
  {
    var i := 0;
    while i < |pedidas|
      invariant 0 <= i <= |pedidas|
      invariant forall k :: 0 <= k < i ==> LineaValida(pedidas[k])
    {
      if !LineaValida(pedidas[i]) {
        return Some(i);
      }
      i := i + 1;
    }
    return None;
  }

  function Lineas(req: CompraRequest): (r: seq<Linea>)
    requires PedidoValido(req)
    ensures |r| == |req.metales.value|
    ensures forall i :: 0 <= i < |r| ==>
      && req.metales.value[i].metalId == Some(r[i].metalId) && r[i].metalId != 0
      && req.metales.value[i].pesoKilos == Some(r[i].pesoKilos) && r[i].pesoKilos > 0.0
  {
    var ps := req.metales.value;
    seq(|ps|, i requires 0 <= i < |ps| => Linea(ps[i].metalId.value, ps[i].pesoKilos.value))
  }

  function Ids(ls: seq<Linea>): (r: seq<int>)
    ensures |r| == |ls|
  {
    seq(|ls|, i requires 0 <= i < |ls| => ls[i].metalId)
  }

  // ------------------------------------------------------------ price lookup

  /** The ids `SELECT ... FROM metales WHERE id = ANY($1)` returns a row for:
      each distinct requested id that the catalog holds, once. */
  function FilasEncontradas(metales: map<int, Metal>, ids: seq<int>): set<int> {
    set id | id in ids && id in metales
  }

  /** The handler goes on only when it got as many rows as lines. */
  predicate PreciosCompletos(metales: map<int, Metal>, ids: seq<int>) {
    |FilasEncontradas(metales, ids)| == |ids|
  }

  /** Row count equals line count exactly when every requested metal exists
      and no metal is requested twice; so a repeated metal aborts the
      purchase, and once the check passes every line has a price. */
  lemma PreciosCompletosIff(metales: map<int, Metal>, ids: seq<int>)
    ensures PreciosCompletos(metales, ids) <==>
      (forall i :: 0 <= i < |ids| ==> ids[i] in metales) && Distinct(ids)
  {
    var found, all := FilasEncontradas(metales, ids), Elements(ids);
    ElementsCount(ids);
    assert found <= all;
    assert all == found + (all - found) && found !! (all - found);
    if exists i :: 0 <= i < |ids| && ids[i] !in metales {
      var i :| 0 <= i < |ids| && ids[i] !in metales;
      assert ids[i] in all - found;
      assert |found| < |all|;
    } else {
      assert found == all;
    }
  }

  // ----------------------------------------------------------------- pricing

  function Calcular(metales: map<int, Metal>, l: Linea): (d: DetalleCalculado)
    requires l.metalId in metales
  {
    var precio := metales[l.metalId].valorPorKilo as real;
    DetalleCalculado(l.metalId, l.pesoKilos, precio, l.pesoKilos * precio)
  }

  predicate Catalogados(metales: map<int, Metal>, ls: seq<Linea>) {
    forall i :: 0 <= i < |ls| ==> ls[i].metalId in metales
  }

  /** Every line priced at its metal's catalog price, in request order. */
  function Calculados(metales: map<int, Metal>, ls: seq<Linea>): (r: seq<DetalleCalculado>)
    requires Catalogados(metales, ls)
    ensures |r| == |ls|
  {
    seq(|ls|, i requires 0 <= i < |ls| => Calcular(metales, ls[i]))
  }

  function SubtotalCalculado(d: DetalleCalculado): real {
    d.subtotal
  }

  /** The `metales.map` that prices each line and accumulates `total_pagar`. */
  method CalcularDetalles(metales: map<int, Metal>, ls: seq<Linea>) returns (dcs: seq<DetalleCalculado>, total: real)
    requires Catalogados(metales, ls)
    ensures dcs == Calculados(metales, ls)
    ensures total == SumOf(dcs, SubtotalCalculado)
  {
    dcs, total := [], 0.0;
    var i := 0;
    while i < |ls|
      invariant 0 <= i <= |ls|
      invariant dcs == Calculados(metales, ls[..i])
      invariant total == SumOf(dcs, SubtotalCalculado)
    {
      var info := metales[ls[i].metalId];
      var peso := ls[i].pesoKilos;
      var subtotal := peso * (info.valorPorKilo as real);
      var d := DetalleCalculado(ls[i].metalId, peso, info.valorPorKilo as real, subtotal);
      SumOfAppend(dcs, [d], SubtotalCalculado);
      total := total + subtotal;
      assert Calculados(metales, ls[..i + 1]) == Calculados(metales, ls[..i]) + [d] by {
        var a, b := Calculados(metales, ls[..i + 1]), Calculados(metales, ls[..i]) + [d];
        forall k | 0 <= k < |a| ensures a[k] == b[k] {
          assert ls[..i + 1][k] == ls[k];
          if k < i {
            assert ls[..i][k] == ls[k];
          }
        }
      }
      dcs := dcs + [d];
      i := i + 1;
    }
    assert ls[..i] == ls;
  }

  /** The rows `INSERT INTO transaccion_detalles ... SELECT $1, unnest(...)` adds. */
  function Filas(id: int, dcs: seq<DetalleCalculado>): (r: seq<Detalle>)
    ensures |r| == |dcs|
  {
    seq(|dcs|, i requires 0 <= i < |dcs| =>
      Detalle(id, dcs[i].metalId, dcs[i].pesoKilos, dcs[i].valorKiloAplicado, dcs[i].subtotal))
  }

  /** Storing the lines keeps their subtotals: the stored lines sum to the
      accumulated total. */
  lemma {:induction false} FilasSuman(id: int, dcs: seq<DetalleCalculado>)
    ensures SumOf(Filas(id, dcs), Subtotal) == SumOf(dcs, SubtotalCalculado)
  {
    if dcs != [] {
      FilasSuman(id, dcs[1..]);
      assert Filas(id, dcs)[1..] == Filas(id, dcs[1..]);
    }
  }

  /** The stored lines are exactly the requested ones: one per request line,
      in request order, all carrying the new id, each at its metal's
      catalog price with subtotal = weight x price. */
  lemma FilasDelPedido(metales: map<int, Metal>, id: int, ls: seq<Linea>, i: int)
    requires Catalogados(metales, ls) && 0 <= i < |ls|
    ensures |Filas(id, Calculados(metales, ls))| == |ls|
    ensures Filas(id, Calculados(metales, ls))[i] ==
      var precio := metales[ls[i].metalId].valorPorKilo as real;
      Detalle(id, ls[i].metalId, ls[i].pesoKilos, precio, ls[i].pesoKilos * precio)
  {
  }

  function LineasVoucher(metales: map<int, Metal>, dcs: seq<DetalleCalculado>): (r: seq<LineaVoucher>)
    requires forall i :: 0 <= i < |dcs| ==> dcs[i].metalId in metales
    ensures |r| == |dcs|
  {
    seq(|dcs|, i requires 0 <= i < |dcs| =>
      LineaVoucher(metales[dcs[i].metalId].nombre, dcs[i].pesoKilos, dcs[i].valorKiloAplicado, dcs[i].subtotal))
  }

  // --------------------------------------------------------------- the handler

  predicate AntesDePrecios(p: Paso) {
    p.Begin? || p.LeerConfiguracion? || p.LeerPrecios?
  }

  /** The header INSERT ran (taking an id from the sequence): the request was
      valid, its prices complete, and no statement up to that INSERT failed. */
  predicate CabeceraInsertada(metales: map<int, Metal>, req: CompraRequest, falla: Option<Paso>) {
    && PedidoValido(req)
    && PreciosCompletos(metales, Ids(Lineas(req)))
    && (falla.None? || falla.value.InsertarDetalles? || falla.value.Commit?)
  }

  /** The rows a priced request becomes are valid new lines of purchase `id`. */
  lemma FilasValidas(metales: map<int, Metal>, id: int, ls: seq<Linea>)
    requires Catalogados(metales, ls)
    requires forall i :: 0 <= i < |ls| ==> ls[i].pesoKilos > 0.0
    ensures NewLinesValid(metales, id, Filas(id, Calculados(metales, ls)))
  {
    var filas := Filas(id, Calculados(metales, ls));
    forall i | 0 <= i < |filas|
      ensures filas[i].transaccionId == id && filas[i].metalId in metales
      ensures filas[i].pesoKilos > 0.0
      ensures filas[i].subtotal == filas[i].pesoKilos * filas[i].valorKiloAplicado
    {
      FilasDelPedido(metales, id, ls, i);
    }
  }

  /** crearTransaccion.  `usuario` is the authenticated user (`req.user`),
      `logoUrl` what the configuration row holds, `ahora` the database clock
      and `falla` the statement, if any, that the database fails. */
  method CrearTransaccion(
    db: Store, usuario: Claims, req: CompraRequest,
    logoUrl: Option<string>, ahora: Timestamp, falla: Option<Paso>)
    returns (resp: CompraResponse)
    requires db.Valid()
    modifies db
    ensures db.Valid()
    ensures db.metales == old(db.metales) && db.nextMetalId == old(db.nextMetalId)
    // 400 exactly for invalid requests, before any statement is sent
    ensures resp.BadRequest400? <==> !PedidoValido(req)
    ensures resp.BadRequest400? ==> db.nextTransaccionId == old(db.nextTransaccionId)
    // the error names the missing header data, or else the first rejected line
    ensures resp == BadRequest400(FaltanDatos) <==> !CabeceraPresente(req)
    ensures resp.BadRequest400? && resp.error.LineaInvalida? ==>
      && CabeceraPresente(req)
      && exists k :: 0 <= k < |req.metales.value| && req.metales.value[k] == resp.error.linea
           && !LineaValida(req.metales.value[k])
           && forall i :: 0 <= i < k ==> LineaValida(req.metales.value[i])
    // the purchase is recorded exactly when every line is priced and no statement fails
    ensures resp.Created201? <==>
      PedidoValido(req) && falla.None? && PreciosCompletos(old(db.metales), Ids(Lineas(req)))
    ensures resp == ServerError500(MetalesInexistentes) <==>
      && PedidoValido(req)
      && (falla.None? || !AntesDePrecios(falla.value))
      && !PreciosCompletos(old(db.metales), Ids(Lineas(req)))
    ensures resp.ServerError500? && resp.detalle.FalloBaseDatos? ==> falla == Some(resp.detalle.paso)
    // the id sequence advances when the header INSERT ran, committed or not
    ensures db.nextTransaccionId ==
      old(db.nextTransaccionId) + if CabeceraInsertada(old(db.metales), req, falla) then 1 else 0
    // nothing is recorded unless everything is
    ensures !resp.Created201? ==>
      db.transacciones == old(db.transacciones) && db.detalles == old(db.detalles)
    ensures resp.Created201? ==>
      && Catalogados(old(db.metales), Lineas(req))
      && var id := old(db.nextTransaccionId);
         var dcs := Calculados(old(db.metales), Lineas(req));
         var total := SumOf(dcs, SubtotalCalculado);
         && db.transacciones == old(db.transacciones) + [Transaccion(
              id, usuario.sucursalId, usuario.id, req.clienteNombre.value, req.clienteRutDni, total, ahora)]
         && db.detalles == old(db.detalles) + Filas(id, dcs)
         && resp.voucher == Voucher(
              logoUrl, id, ahora, usuario.sucursalId, usuario.id,
              Cliente(req.clienteNombre.value, req.clienteRutDni),
              total, LineasVoucher(old(db.metales), dcs))
  {
    if !CabeceraPresente(req) {
      return BadRequest400(FaltanDatos);
    }
    var pedidas := req.metales.value;
    var mala := PrimeraLineaInvalida(pedidas);
    if mala.Some? {
      return BadRequest400(LineaInvalida(pedidas[mala.value]));
    }

    // From BEGIN on, a failing statement means ROLLBACK and 500.
    if falla == Some(Begin) || falla == Some(LeerConfiguracion) || falla == Some(LeerPrecios) {
      return ServerError500(FalloBaseDatos(falla.value));
    }
    var lineas := Lineas(req);
    var ids := Ids(lineas);
    if |FilasEncontradas(db.metales, ids)| != |ids| {
      return ServerError500(MetalesInexistentes);
    }
    PreciosCompletosIff(db.metales, ids);
    assert Catalogados(db.metales, lineas) by {
      forall i | 0 <= i < |lineas| ensures lineas[i].metalId in db.metales {
        assert ids[i] == lineas[i].metalId;
      }
    }
    var dcs, total := CalcularDetalles(db.metales, lineas);

    if falla == Some(InsertarCabecera) {
      return ServerError500(FalloBaseDatos(InsertarCabecera));
    }
    // INSERT ... RETURNING id: the id comes from the sequence, which ROLLBACK does not rewind.
    var id := db.nextTransaccionId;
    db.nextTransaccionId := id + 1;
    var cabecera := Transaccion(
      id, usuario.sucursalId, usuario.id, req.clienteNombre.value, req.clienteRutDni, total, ahora);
    var filas := Filas(id, dcs);
    // Both inserts stay pending until COMMIT; ROLLBACK discards them.
    if falla.Some? {
      return ServerError500(FalloBaseDatos(falla.value));
    }
    FilasSuman(id, dcs);
    FilasValidas(db.metales, id, lineas);
    db.Registrar(cabecera, filas);
    resp := Created201(Voucher(
      logoUrl, id, ahora, usuario.sucursalId, usuario.id,
      Cliente(req.clienteNombre.value, req.clienteRutDni),
      total, LineasVoucher(db.metales, dcs)));
  }
}
