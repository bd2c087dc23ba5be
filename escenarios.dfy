/** The two purchase scenarios the repository's own tests describe, played
    against the model: a store with one metal, an executive of branch 5 with
    id 10, and one purchase request. */
module Escenarios {
  import opened Common
  import opened Schema
  import opened Database
  import opened MetalController
  import opened TransaccionController

  /** The executive the scenarios act as. */
  function Ejecutivo(): Claims {
    Claims(10, "", EjecutivoRole, Some(5))
  }

  /** A new store whose catalog holds copper at 1000 per kilo, under id 1. */
  method CatalogoConCobre(ahora: Timestamp) returns (db: Store)
    ensures fresh(db) && db.Valid()
    ensures db.metales == map[1 := Metal("Cobre", 1000, ahora)]
    ensures db.transacciones == [] && db.detalles == [] && db.nextTransaccionId == 1
  {
    db := new Store();
    var alta := CrearMetal(db, MetalRequest(Some("Cobre"), Some(1000.0)), ahora);
    assert MathRound(1000.0) == 1000;
  }

  /** 10 kg of copper at 1000: the purchase is recorded with correlative 1,
      a total of 10000, and the executive and branch of the token. */
  method CompraRegistrada(ahora: Timestamp) returns (resp: CompraResponse, cabeceras: nat, lineas: nat)
    ensures resp.Created201?
    ensures resp.voucher.correlativo == 1
    ensures resp.voucher.totalPagado == 10000.0
    ensures resp.voucher.ejecutivoId == 10 && resp.voucher.sucursalId == Some(5)
    ensures resp.voucher.detalles == [LineaVoucher("Cobre", 10.0, 1000.0, 10000.0)]
    ensures cabeceras == 1 && lineas == 1
  {
    var db := CatalogoConCobre(ahora);
    var req := CompraRequest(Some("Juan Perez"), Some("12345678-9"), Some([LineaPedida(Some(1), Some(10.0))]));
    assert Ids(Lineas(req)) == [1];
    assert PreciosCompletos(db.metales, [1]) by {
      assert FilasEncontradas(db.metales, [1]) == {1};
    }
    resp := CrearTransaccion(db, Ejecutivo(), req, Some("http://logo.png"), ahora, None);
    var dcs := Calculados(map[1 := Metal("Cobre", 1000, ahora)], Lineas(req));
    assert dcs == [DetalleCalculado(1, 10.0, 1000.0, 10000.0)];
    assert SumOf(dcs, SubtotalCalculado) == 10000.0;
    cabeceras, lineas := |db.transacciones|, |db.detalles|;
  }

  /** The price query fails: the answer is 500 and nothing is recorded. */
  method CompraRevertida(ahora: Timestamp) returns (resp: CompraResponse, cabeceras: nat, lineas: nat)
    ensures resp == CompraResponse.ServerError500(FalloBaseDatos(LeerPrecios))
    ensures cabeceras == 0 && lineas == 0
  {
    var db := CatalogoConCobre(ahora);
    var req := CompraRequest(Some("Error Man"), None, Some([LineaPedida(Some(1), Some(5.0))]));
    assert PedidoValido(req);
    resp := CrearTransaccion(db, Ejecutivo(), req, None, ahora, Some(LeerPrecios));
    assert resp.ServerError500?;
    assert resp.detalle != MetalesInexistentes;
    cabeceras, lineas := |db.transacciones|, |db.detalles|;
  }
}
