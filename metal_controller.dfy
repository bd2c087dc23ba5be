/** The metal price catalog: listing it by name, creating a metal, and the
    partial update whose UPDATE statement is assembled clause by clause. */
module MetalController {
  import opened Common
  import opened Schema
  import opened Sorting
  import opened Database

  /** The body of a create or update; `valorPorKilo` is None when `undefined`. */
  datatype MetalRequest = MetalRequest(nombre: Option<string>, valorPorKilo: Option<real>)

  /** A catalog row as the API returns it (`RETURNING *`, `SELECT *`). */
  datatype FilaMetal = FilaMetal(id: int, metal: Metal)

  datatype ErrorMetal = FaltanCampos | NombreDuplicado

  datatype MetalResponse =
    | Ok200(fila: FilaMetal)
    | Created201(fila: FilaMetal)
    | BadRequest400(error: ErrorMetal)
    | NotFound404
    | ServerError500

  /** Some row other than `excepto` already carries `nombre`. */
  predicate NombreEnUso(metales: map<int, Metal>, nombre: string, excepto: Option<int>) {
    exists k | k in metales :: metales[k].nombre == nombre && Some(k) != excepto
  }

  // ------------------------------------------------------------------ create

  /** crearMetal.  The price is stored as Math.round of the given value; the
      id is taken from the sequence before the UNIQUE check, so a duplicate
      name still consumes one. */
  method CrearMetal(db: Store, req: MetalRequest, ahora: Timestamp) returns (resp: MetalResponse)
    requires db.Valid()
    modifies db
    ensures db.Valid()
    ensures db.transacciones == old(db.transacciones) && db.detalles == old(db.detalles)
    ensures db.nextTransaccionId == old(db.nextTransaccionId)
    ensures resp == BadRequest400(FaltanCampos) <==> !Truthy(req.nombre) || req.valorPorKilo.None?
    ensures resp == BadRequest400(FaltanCampos) ==>
      db.metales == old(db.metales) && db.nextMetalId == old(db.nextMetalId)
    ensures resp == BadRequest400(NombreDuplicado) <==>
      Truthy(req.nombre) && req.valorPorKilo.Some? && NombreEnUso(old(db.metales), req.nombre.value, None)
    ensures resp == BadRequest400(NombreDuplicado) ==>
      db.metales == old(db.metales) && db.nextMetalId == old(db.nextMetalId) + 1
    ensures resp.Created201? <==>
      Truthy(req.nombre) && req.valorPorKilo.Some? && !NombreEnUso(old(db.metales), req.nombre.value, None)
    ensures resp.Created201? ==>
      && var m := Metal(req.nombre.value, MathRound(req.valorPorKilo.value), ahora);
         && resp.fila == FilaMetal(old(db.nextMetalId), m)
         && old(db.nextMetalId) !in old(db.metales)
         && db.metales == old(db.metales)[old(db.nextMetalId) := m]
         && db.nextMetalId == old(db.nextMetalId) + 1
  {
    if !Truthy(req.nombre) || req.valorPorKilo.None? {
      return BadRequest400(FaltanCampos);
    }
    var nombre := req.nombre.value;
    var valor := MathRound(req.valorPorKilo.value);
    var id := db.nextMetalId;
    db.nextMetalId := id + 1;
    if exists k | k in db.metales :: db.metales[k].nombre == nombre {
      return BadRequest400(NombreDuplicado);
    }
    var m := Metal(nombre, valor, ahora);
    CatalogGrowthKeepsLedger(db.metales, db.metales[id := m], db.transacciones, db.detalles, db.nextTransaccionId);
    db.metales := db.metales[id := m];
    resp := Created201(FilaMetal(id, m));
  }

  // ------------------------------------------------------------------ update

  /** One `SET` assignment of the UPDATE statement. */
  datatype Asignacion = UpdatedAtAhora | NombreParam(param: nat) | ValorParam(param: nat)

  /** `UPDATE metales SET <sets> WHERE id = $<idParam>` with its bound values. */
  datatype Actualizacion = Actualizacion(sets: seq<Asignacion>, idParam: nat, valores: seq<SqlValor>)

  function ParamDe(a: Asignacion): nat {
    match a
    case UpdatedAtAhora => 0
    case NombreParam(p) => p
    case ValorParam(p) => p
  }

  /** `updated_at` comes first, the k-th assignment after it uses `$k`, the
      id is bound to the last placeholder, and there is one value per placeholder. */
  predicate BienNumerada(q: Actualizacion) {
    && |q.sets| >= 1
    && q.sets[0] == UpdatedAtAhora
    && (forall k :: 1 <= k < |q.sets| ==> !q.sets[k].UpdatedAtAhora? && ParamDe(q.sets[k]) == k)
    && q.idParam == |q.sets|
    && |q.valores| == q.idParam
  }

  /** What one assignment does to a row, reading its placeholder's value. */
  function AplicarUna(a: Asignacion, valores: seq<SqlValor>, m: Metal, ahora: Timestamp): Metal {
    match a
    case UpdatedAtAhora => m.(updatedAt := ahora)
    case NombreParam(p) =>
      if 1 <= p <= |valores| && valores[p - 1].Texto? then m.(nombre := valores[p - 1].t) else m
    case ValorParam(p) =>
      if 1 <= p <= |valores| && valores[p - 1].Entero? then m.(valorPorKilo := valores[p - 1].n) else m
  }

  /** What the whole SET list does to a row. */
  function Aplicar(sets: seq<Asignacion>, valores: seq<SqlValor>, m: Metal, ahora: Timestamp): Metal
    decreases |sets|
  {
    if sets == [] then m else Aplicar(sets[1..], valores, AplicarUna(sets[0], valores, m, ahora), ahora)
  }

  /** The intended update: the name only if a non-empty one is given, the
      price (rounded) only if one is given, and always the timestamp. */
  function Actualizado(m: Metal, nombre: Option<string>, valor: Option<real>, ahora: Timestamp): Metal {
    Metal(
      if Truthy(nombre) then nombre.value else m.nombre,
      if valor.Some? then MathRound(valor.value) else m.valorPorKilo,
      ahora)
  }

  /** The query builder of actualizarMetal: appends to the SET list and the
      value list, numbering placeholders with a running index. */
  method ConstruirActualizacion(nombre: Option<string>, valor: Option<real>, id: int) returns (q: Actualizacion)
    ensures BienNumerada(q)
    ensures q.valores[q.idParam - 1] == Entero(id)
    ensures forall m: Metal, ahora: Timestamp ::
      Aplicar(q.sets, q.valores, m, ahora) == Actualizado(m, nombre, valor, ahora)
  {
    var sets := [UpdatedAtAhora];
    var valores: seq<SqlValor> := [];
    var paramIndex := 1;
    if Truthy(nombre) {
      sets := sets + [NombreParam(paramIndex)];
      paramIndex := paramIndex + 1;
      valores := valores + [Texto(nombre.value)];
    }
    if valor.Some? {
      var redondeado := MathRound(valor.value);
      sets := sets + [ValorParam(paramIndex)];
      paramIndex := paramIndex + 1;
      valores := valores + [Entero(redondeado)];
    }
    valores := valores + [Entero(id)];
    q := Actualizacion(sets, paramIndex, valores);
    forall m: Metal, ahora: Timestamp
      ensures Aplicar(q.sets, q.valores, m, ahora) == Actualizado(m, nombre, valor, ahora)
    {
      AplicarConstruida(nombre, valor, q, m, ahora);
    }
  }

  lemma AplicarConstruida(nombre: Option<string>, valor: Option<real>, q: Actualizacion, m: Metal, ahora: Timestamp)
    requires BienNumerada(q)
    requires |q.sets| == 1 + (if Truthy(nombre) then 1 else 0) + (if valor.Some? then 1 else 0)
    requires Truthy(nombre) ==> q.sets[1].NombreParam? && q.valores[0] == Texto(nombre.value)
    requires valor.Some? ==>
      var k := if Truthy(nombre) then 2 else 1;
      q.sets[k].ValorParam? && q.valores[k - 1] == Entero(MathRound(valor.value))
    ensures Aplicar(q.sets, q.valores, m, ahora) == Actualizado(m, nombre, valor, ahora)
  {
    var s, vs := q.sets, q.valores;
    var m1 := AplicarUna(s[0], vs, m, ahora);
    assert m1 == m.(updatedAt := ahora);
    assert Aplicar(s, vs, m, ahora) == Aplicar(s[1..], vs, m1, ahora);
    if Truthy(nombre) {
      var m2 := AplicarUna(s[1], vs, m1, ahora);
      assert Aplicar(s[1..], vs, m1, ahora) == Aplicar(s[2..], vs, m2, ahora);
      if valor.Some? {
        var m3 := AplicarUna(s[2], vs, m2, ahora);
        assert Aplicar(s[2..], vs, m2, ahora) == Aplicar(s[3..], vs, m3, ahora);
        assert s[3..] == [];
      } else {
        assert s[2..] == [];
      }
    } else {
      if valor.Some? {
        var m2 := AplicarUna(s[1], vs, m1, ahora);
        assert Aplicar(s[1..], vs, m1, ahora) == Aplicar(s[2..], vs, m2, ahora);
        assert s[2..] == [];
      } else {
        assert s[1..] == [];
      }
    }
  }

  /** actualizarMetal.  An absent id answers 404; a name that another metal
      already has violates the UNIQUE constraint, which this handler answers
      with 500.  Recorded purchase lines are never touched. */
  method ActualizarMetal(db: Store, id: int, req: MetalRequest, ahora: Timestamp) returns (resp: MetalResponse)
    requires db.Valid()
    modifies db
    ensures db.Valid()
    ensures db.transacciones == old(db.transacciones) && db.detalles == old(db.detalles)
    ensures db.nextTransaccionId == old(db.nextTransaccionId) && db.nextMetalId == old(db.nextMetalId)
    ensures resp == NotFound404 <==> id !in old(db.metales)
    ensures resp == ServerError500 <==>
      id in old(db.metales) &&
      NombreEnUso(old(db.metales), Actualizado(old(db.metales)[id], req.nombre, req.valorPorKilo, ahora).nombre, Some(id))
    ensures resp.Ok200? <==>
      id in old(db.metales) &&
      !NombreEnUso(old(db.metales), Actualizado(old(db.metales)[id], req.nombre, req.valorPorKilo, ahora).nombre, Some(id))
    ensures !resp.Ok200? ==> db.metales == old(db.metales)
    ensures resp.Ok200? ==>
      && id in old(db.metales)
      && var m := Actualizado(old(db.metales)[id], req.nombre, req.valorPorKilo, ahora);
         resp.fila == FilaMetal(id, m) && db.metales == old(db.metales)[id := m]
  {
    var q := ConstruirActualizacion(req.nombre, req.valorPorKilo, id);
    var buscado := q.valores[q.idParam - 1].n;
    if buscado !in db.metales {
      return NotFound404;
    }
    var nuevo := Aplicar(q.sets, q.valores, db.metales[buscado], ahora);
    if exists k | k in db.metales :: db.metales[k].nombre == nuevo.nombre && k != buscado {
      return ServerError500;
    }
    CatalogGrowthKeepsLedger(db.metales, db.metales[id := nuevo], db.transacciones, db.detalles, db.nextTransaccionId);
    db.metales := db.metales[id := nuevo];
    resp := Ok200(FilaMetal(id, nuevo));
  }

  // -------------------------------------------------------------------- list

  function ClaveNombre(f: FilaMetal): SortKey {
    TextKey(f.metal.nombre)
  }

  function FilasCatalogo(metales: map<int, Metal>, ids: set<int>): set<FilaMetal>
    requires ids <= metales.Keys
  {
    set k | k in ids :: FilaMetal(k, metales[k])
  }

  /** listarMetales: `SELECT * FROM metales ORDER BY nombre ASC`. */
  method ListarMetales(db: Store) returns (filas: seq<FilaMetal>)
    requires db.Valid()
    ensures multiset(filas) == multiset(FilasCatalogo(db.metales, db.metales.Keys))
    ensures forall i, j :: 0 <= i < j < |filas| ==>
      TextLe(filas[i].metal.nombre, filas[j].metal.nombre) && filas[i].metal.nombre != filas[j].metal.nombre
  {
    // The loop is the table scan of the single SELECT: it visits the rows in
    // no particular order, and ORDER BY then sorts them.
    var leidas: seq<FilaMetal> := [];
    var pendientes := db.metales.Keys;
    while pendientes != {}
      invariant pendientes <= db.metales.Keys
      invariant multiset(leidas) == multiset(FilasCatalogo(db.metales, db.metales.Keys - pendientes))
      decreases pendientes
    {
      NonEmptyHasElement(pendientes);
      var id :| id in pendientes;
      var fila := FilaMetal(id, db.metales[id]);
      leidas := leidas + [fila];
      pendientes := pendientes - {id};
    }
    assert db.metales.Keys - pendientes == db.metales.Keys;
    filas := SortBy(leidas, ClaveNombre, false);
    OrdenPorNombre(db.metales, leidas);
  }

  /** Sorting the rows of the whole catalog by name keeps every row and puts
      the names in strictly increasing order. */
  lemma OrdenPorNombre(metales: map<int, Metal>, leidas: seq<FilaMetal>)
    requires forall a, b :: a in metales && b in metales && a != b ==> metales[a].nombre != metales[b].nombre
    requires multiset(leidas) == multiset(FilasCatalogo(metales, metales.Keys))
    ensures multiset(SortBy(leidas, ClaveNombre, false)) == multiset(leidas)
    ensures var filas := SortBy(leidas, ClaveNombre, false);
      forall i, j :: 0 <= i < j < |filas| ==>
        TextLe(filas[i].metal.nombre, filas[j].metal.nombre) && filas[i].metal.nombre != filas[j].metal.nombre
  {
    var filas := SortBy(leidas, ClaveNombre, false);
    SortBySorted(leidas, ClaveNombre, false);
    forall i, j | 0 <= i < j < |filas|
      ensures TextLe(filas[i].metal.nombre, filas[j].metal.nombre) && filas[i].metal.nombre != filas[j].metal.nombre
    {
      FilasDistintas(metales, filas, i, j);
    }
  }

  /** Two positions of a listing of the catalog hold rows of two different
      metals, hence (names being unique) two different names. */
  lemma FilasDistintas(metales: map<int, Metal>, filas: seq<FilaMetal>, i: int, j: int)
    requires forall a, b :: a in metales && b in metales && a != b ==> metales[a].nombre != metales[b].nombre
    requires multiset(filas) == multiset(FilasCatalogo(metales, metales.Keys))
    requires 0 <= i < j < |filas|
    ensures filas[i].metal.nombre != filas[j].metal.nombre
  {
    var todas := FilasCatalogo(metales, metales.Keys);
    assert filas[i] in multiset(filas) && filas[j] in multiset(filas);
    assert filas[i] in todas && filas[j] in todas;
    AtMostOnceDistinct(filas, i, j);
  }
}
