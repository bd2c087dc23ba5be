/** The purchase history: the paginated, filtered and sorted listing whose
    WHERE clause and `$n` placeholders are assembled step by step, and the
    lookup of one purchase by id. */
module TransaccionListado {
  import opened Common
  import opened Schema
  import opened Sorting
  import opened Database

  /** The query string.  A field is None when it is absent (a filter also when
      it is empty); dates are calendar days, as the date inputs of the history
      screen send them. */
  datatype ListParams = ListParams(
    page: Option<int>,
    limit: Option<int>,
    sort: Option<string>,
    order: Option<string>,
    metalId: Option<int>,
    fechaInicio: Option<int>,
    fechaFin: Option<int>)

  /** The defaults of the query string's destructuring. */
  const PaginaPorDefecto: int := 1
  const LimitePorDefecto: int := 20

  function NumeroPagina(p: ListParams): int {
    p.page.GetOr(PaginaPorDefecto)
  }

  function TamanoPagina(p: ListParams): int {
    p.limit.GetOr(LimitePorDefecto)
  }

  // ------------------------------------------------------------- sort order

  datatype CampoOrden = Id | FechaHora | ClienteNombre | TotalPagar

  function NombreColumna(c: CampoOrden): string {
    match c
    case Id => "id"
    case FechaHora => "fecha_hora"
    case ClienteNombre => "cliente_nombre"
    case TotalPagar => "total_pagar"
  }

  /** The columns a client may sort by. */
  const CamposPermitidos: seq<string> := ["id", "fecha_hora", "cliente_nombre", "total_pagar"]

  /** The sort allow-list: a permitted column name selects that column; any
      other value, and no value at all, selects `t.id`. */
  function ElegirCampo(sort: Option<string>): (c: CampoOrden)
    ensures sort.Some? && sort.value in CamposPermitidos ==> NombreColumna(c) == sort.value
    ensures !(sort.Some? && sort.value in CamposPermitidos) ==> c == Id
  {
    var s := sort.GetOr("id");
    if s == "fecha_hora" then FechaHora
    else if s == "cliente_nombre" then ClienteNombre
    else if s == "total_pagar" then TotalPagar
    else Id
  }

  function MayusculaAscii(c: char): char {
    if 'a' <= c <= 'z' then (c as int - 32) as char else c
  }

  function MayusculasAscii(s: string): string {
    seq(|s|, i requires 0 <= i < |s| => MayusculaAscii(s[i]))
  }

  /** `order.toUpperCase() === 'ASC'` fails, so the order is descending,
      unless the value is "asc" in any mix of upper and lower case; with no
      value the default is "DESC". */
  function EsDescendente(order: Option<string>): (d: bool)
    ensures !d <==>
      order.Some? && |order.value| == 3 &&
      order.value[0] in "aA" && order.value[1] in "sS" && order.value[2] in "cC"
  {
    var u := MayusculasAscii(order.GetOr("DESC"));
    assert |u| == 3 ==> (u == "ASC" <==> u[0] == 'A' && u[1] == 'S' && u[2] == 'C');
    u != "ASC"
  }

  function ClaveOrden(c: CampoOrden): Transaccion -> SortKey {
    match c
    case Id => (h: Transaccion) => IntKey(h.id)
    case FechaHora => (h: Transaccion) => IntKey(h.fechaHora)
    case ClienteNombre => (h: Transaccion) => TextKey(h.clienteNombre)
    case TotalPagar => (h: Transaccion) => RealKey(h.totalPagar)
  }

  // ------------------------------------------------------------ WHERE clause

  /** One conjunct of the WHERE clause, naming the placeholder it reads.
      `HastaFecha` is `t.fecha_hora <= $n`; `HastaDia` is
      `t.fecha_hora::date <= $n`. */
  datatype Condicion =
    | Siempre
    | DesdeFecha(param: nat)
    | HastaFecha(param: nat)
    | HastaDia(param: nat)
    | ConMetal(param: nat)

  /** `SELECT ... WHERE <condiciones> ORDER BY <campo> LIMIT $l OFFSET $o`. */
  datatype Consulta = Consulta(
    condiciones: seq<Condicion>,
    campo: CampoOrden,
    descendente: bool,
    limitParam: nat,
    offsetParam: nat,
    valores: seq<SqlValor>)

  /** `1=1` comes first, the k-th condition after it reads `$k`, and there is
      one value for each placeholder bound so far. */
  predicate Numeradas(cs: seq<Condicion>, nValores: int) {
    && |cs| >= 1
    && cs[0] == Siempre
    && (forall k :: 1 <= k < |cs| ==> !cs[k].Siempre? && cs[k].param == k)
    && nValores == |cs| - 1
  }

  /** The conditions are numbered `$1..$k`, LIMIT is `$k+1`, OFFSET is `$k+2`
      and the values match the placeholders one to one. */
  predicate BienNumerada(q: Consulta) {
    && Numeradas(q.condiciones, q.limitParam - 1)
    && q.offsetParam == q.limitParam + 1
    && |q.valores| == q.offsetParam
  }

  /** What one conjunct means for a header, reading its placeholder's value. */
  predicate Cumple(c: Condicion, valores: seq<SqlValor>, ds: seq<Detalle>, h: Transaccion) {
    match c
    case Siempre => true
    case DesdeFecha(p) =>
      1 <= p <= |valores| && valores[p - 1].Dia? && h.fechaHora >= StartOfDay(valores[p - 1].d)
    case HastaFecha(p) =>
      1 <= p <= |valores| && valores[p - 1].Dia? && h.fechaHora <= StartOfDay(valores[p - 1].d)
    case HastaDia(p) =>
      1 <= p <= |valores| && valores[p - 1].Dia? && DayOf(h.fechaHora) <= valores[p - 1].d
    case ConMetal(p) =>
      1 <= p <= |valores| && valores[p - 1].Entero? &&
      exists l | l in LinesOf(ds, h.id) :: l.metalId == valores[p - 1].n
  }

  predicate CumpleTodas(cs: seq<Condicion>, valores: seq<SqlValor>, ds: seq<Detalle>, h: Transaccion) {
    forall k :: 0 <= k < |cs| ==> Cumple(cs[k], valores, ds, h)
  }

  /** How the end of the date range is compared with a purchase's instant.
      `FinComoEscrito` is the handler's `t.fecha_hora <= $n`, where the date
      is read as the first instant of the end day; `FinPorDia` compares
      calendar days and so keeps the whole end day (the corrected condition). */
  datatype FinRango = FinComoEscrito | FinPorDia

  /** The conjunct pushed for the end of the range. */
  function CondicionFin(fin: FinRango, param: nat): Condicion {
    match fin
    case FinComoEscrito => HastaFecha(param)
    case FinPorDia => HastaDia(param)
  }

  /** An instant is within a range that ends on day `d`. */
  predicate DentroDelFin(fin: FinRango, t: Timestamp, d: int) {
    match fin
    case FinComoEscrito => t <= StartOfDay(d)
    case FinPorDia => DayOf(t) <= d
  }

  /** The filter of the listing: the start day is inclusive, the end is
      compared as `fin` says, and the metal filter keeps a purchase with at
      least one line of that metal. */
  predicate EnFiltro(p: ListParams, fin: FinRango, ds: seq<Detalle>, h: Transaccion) {
    && (p.fechaInicio.Some? ==> p.fechaInicio.value <= DayOf(h.fechaHora))
    && (p.fechaFin.Some? ==> DentroDelFin(fin, h.fechaHora, p.fechaFin.value))
    && (p.metalId.Some? ==> exists l | l in LinesOf(ds, h.id) :: l.metalId == p.metalId.value)
  }

  /** The first `etapa` of the three filters, in the order they are appended. */
  predicate EnFiltroHasta(p: ListParams, fin: FinRango, etapa: nat, ds: seq<Detalle>, h: Transaccion) {
    && (etapa >= 1 && p.fechaInicio.Some? ==> p.fechaInicio.value <= DayOf(h.fechaHora))
    && (etapa >= 2 && p.fechaFin.Some? ==> DentroDelFin(fin, h.fechaHora, p.fechaFin.value))
    && (etapa >= 3 && p.metalId.Some? ==> exists l | l in LinesOf(ds, h.id) :: l.metalId == p.metalId.value)
  }

  /** A condition whose placeholder is already bound reads the same value
      after more values are appended. */
  lemma CumpleExtendido(c: Condicion, valores: seq<SqlValor>, extra: seq<SqlValor>, ds: seq<Detalle>, h: Transaccion)
    requires c.Siempre? || 1 <= c.param <= |valores|
    ensures Cumple(c, valores + extra, ds, h) == Cumple(c, valores, ds, h)
  {
    if !c.Siempre? {
      assert (valores + extra)[c.param - 1] == valores[c.param - 1];
    }
  }

  lemma CumpleTodasExtendido(cs: seq<Condicion>, valores: seq<SqlValor>, extra: seq<SqlValor>)
    requires Numeradas(cs, |valores|)
    ensures forall ds: seq<Detalle>, h: Transaccion ::
      CumpleTodas(cs, valores + extra, ds, h) == CumpleTodas(cs, valores, ds, h)
  {
    forall ds: seq<Detalle>, h: Transaccion, k | 0 <= k < |cs|
      ensures Cumple(cs[k], valores + extra, ds, h) == Cumple(cs[k], valores, ds, h)
    {
      CumpleExtendido(cs[k], valores, extra, ds, h);
    }
  }

  /** Appending a condition on the next placeholder together with its value
      adds exactly that condition to the WHERE clause. */
  lemma AgregarCondicion(cs: seq<Condicion>, valores: seq<SqlValor>, c: Condicion, v: SqlValor)
    requires Numeradas(cs, |valores|)
    requires !c.Siempre? && c.param == |cs|
    ensures Numeradas(cs + [c], |valores| + 1)
    ensures forall ds: seq<Detalle>, h: Transaccion ::
      CumpleTodas(cs + [c], valores + [v], ds, h) <==>
      CumpleTodas(cs, valores, ds, h) && Cumple(c, valores + [v], ds, h)
  {
    CumpleTodasExtendido(cs, valores, [v]);
    forall ds: seq<Detalle>, h: Transaccion
      ensures CumpleTodas(cs + [c], valores + [v], ds, h) <==>
        CumpleTodas(cs, valores, ds, h) && Cumple(c, valores + [v], ds, h)
    {
      var cs' := cs + [c];
      assert cs'[|cs|] == c;
      assert forall k :: 0 <= k < |cs| ==> cs'[k] == cs[k];
    }
  }

  /** The conditions and values select exactly the headers that pass the
      first `etapa` filters. */
  ghost predicate Equivale(p: ListParams, fin: FinRango, etapa: nat, cs: seq<Condicion>, valores: seq<SqlValor>) {
    forall ds: seq<Detalle>, h: Transaccion ::
      CumpleTodas(cs, valores, ds, h) <==> EnFiltroHasta(p, fin, etapa, ds, h)
  }

  /** The start-date stage: `fecha_hora >= $n` bound to the day's first instant. */
  lemma EtapaDesde(p: ListParams, fin: FinRango, cs: seq<Condicion>, valores: seq<SqlValor>)
    requires cs == [Siempre] && valores == []
    ensures p.fechaInicio.Some? ==>
      var c := DesdeFecha(|cs|);
      var v := Dia(p.fechaInicio.value);
      Numeradas(cs + [c], |valores| + 1) && Equivale(p, fin, 1, cs + [c], valores + [v])
    ensures p.fechaInicio.None? ==> Numeradas(cs, |valores|) && Equivale(p, fin, 1, cs, valores)
  {
    if p.fechaInicio.Some? {
      var c := DesdeFecha(|cs|);
      var v := Dia(p.fechaInicio.value);
      AgregarCondicion(cs, valores, c, v);
      forall ds: seq<Detalle>, h: Transaccion
        ensures CumpleTodas(cs + [c], valores + [v], ds, h) <==> EnFiltroHasta(p, fin, 1, ds, h)
      {
        StartOfDayOrder(h.fechaHora, p.fechaInicio.value);
      }
    }
  }

  /** The end-date stage: the end condition `fin` selects, on the next placeholder. */
  lemma EtapaHasta(p: ListParams, fin: FinRango, cs: seq<Condicion>, valores: seq<SqlValor>)
    requires Numeradas(cs, |valores|) && Equivale(p, fin, 1, cs, valores)
    ensures p.fechaFin.Some? ==>
      var c := CondicionFin(fin, |cs|);
      var v := Dia(p.fechaFin.value);
      Numeradas(cs + [c], |valores| + 1) && Equivale(p, fin, 2, cs + [c], valores + [v])
    ensures p.fechaFin.None? ==> Equivale(p, fin, 2, cs, valores)
  {
    if p.fechaFin.Some? {
      var c := CondicionFin(fin, |cs|);
      var v := Dia(p.fechaFin.value);
      AgregarCondicion(cs, valores, c, v);
      forall ds: seq<Detalle>, h: Transaccion
        ensures CumpleTodas(cs + [c], valores + [v], ds, h) <==> EnFiltroHasta(p, fin, 2, ds, h)
      {
        assert CumpleTodas(cs, valores, ds, h) <==> EnFiltroHasta(p, fin, 1, ds, h);
      }
    } else {
      forall ds: seq<Detalle>, h: Transaccion
        ensures CumpleTodas(cs, valores, ds, h) <==> EnFiltroHasta(p, fin, 2, ds, h)
      {
        assert CumpleTodas(cs, valores, ds, h) <==> EnFiltroHasta(p, fin, 1, ds, h);
      }
    }
  }

  /** The metal stage: `EXISTS (... d.metal_id = $n)`. */
  lemma EtapaMetal(p: ListParams, fin: FinRango, cs: seq<Condicion>, valores: seq<SqlValor>)
    requires Numeradas(cs, |valores|) && Equivale(p, fin, 2, cs, valores)
    ensures p.metalId.Some? ==>
      var c := ConMetal(|cs|);
      var v := Entero(p.metalId.value);
      Numeradas(cs + [c], |valores| + 1) && Equivale(p, fin, 3, cs + [c], valores + [v])
    ensures p.metalId.None? ==> Equivale(p, fin, 3, cs, valores)
  {
    if p.metalId.Some? {
      var c := ConMetal(|cs|);
      var v := Entero(p.metalId.value);
      AgregarCondicion(cs, valores, c, v);
      forall ds: seq<Detalle>, h: Transaccion
        ensures CumpleTodas(cs + [c], valores + [v], ds, h) <==> EnFiltroHasta(p, fin, 3, ds, h)
      {
        assert CumpleTodas(cs, valores, ds, h) <==> EnFiltroHasta(p, fin, 2, ds, h);
      }
    } else {
      forall ds: seq<Detalle>, h: Transaccion
        ensures CumpleTodas(cs, valores, ds, h) <==> EnFiltroHasta(p, fin, 3, ds, h)
      {
        assert CumpleTodas(cs, valores, ds, h) <==> EnFiltroHasta(p, fin, 2, ds, h);
      }
    }
  }

  /** Binding LIMIT and OFFSET after the filters leaves what they select unchanged. */
  lemma EtapaPaginacion(p: ListParams, fin: FinRango, cs: seq<Condicion>, valores: seq<SqlValor>, extra: seq<SqlValor>)
    requires Numeradas(cs, |valores|) && Equivale(p, fin, 3, cs, valores)
    ensures forall ds: seq<Detalle>, h: Transaccion ::
      CumpleTodas(cs, valores + extra, ds, h) <==> EnFiltro(p, fin, ds, h)
  {
    CumpleTodasExtendido(cs, valores, extra);
    forall ds: seq<Detalle>, h: Transaccion
      ensures CumpleTodas(cs, valores + extra, ds, h) <==> EnFiltro(p, fin, ds, h)
    {
      assert CumpleTodas(cs, valores, ds, h) <==> EnFiltroHasta(p, fin, 3, ds, h);
    }
  }

  /** The query builder of listarTransacciones: pushes a condition and its
      value for each filter given, numbering the placeholders with a running
      index, then binds LIMIT and OFFSET to the next two.  The handler pushes
      the end condition `FinComoEscrito`; `FinPorDia` gives the corrected
      query. */
  method ConstruirConsulta(p: ListParams, fin: FinRango) returns (q: Consulta)
    ensures BienNumerada(q)
    ensures q.campo == ElegirCampo(p.sort) && q.descendente == EsDescendente(p.order)
    ensures q.valores[q.limitParam - 1] == Entero(TamanoPagina(p))
    ensures q.valores[q.offsetParam - 1] == Entero((NumeroPagina(p) - 1) * TamanoPagina(p))
    ensures forall ds: seq<Detalle>, h: Transaccion ::
      CumpleTodas(q.condiciones, q.valores, ds, h) <==> EnFiltro(p, fin, ds, h)
  {
    var page, limit := p.page.GetOr(PaginaPorDefecto), p.limit.GetOr(LimitePorDefecto);
    var condiciones := [Siempre];
    var valores: seq<SqlValor> := [];
    var paramIndex := 1;
    EtapaDesde(p, fin, condiciones, valores);
    if p.fechaInicio.Some? {
      condiciones := condiciones + [DesdeFecha(paramIndex)];
      valores := valores + [Dia(p.fechaInicio.value)];
      paramIndex := paramIndex + 1;
    }
    EtapaHasta(p, fin, condiciones, valores);
    if p.fechaFin.Some? {
      condiciones := condiciones + [CondicionFin(fin, paramIndex)];
      valores := valores + [Dia(p.fechaFin.value)];
      paramIndex := paramIndex + 1;
    }
    EtapaMetal(p, fin, condiciones, valores);
    if p.metalId.Some? {
      condiciones := condiciones + [ConMetal(paramIndex)];
      valores := valores + [Entero(p.metalId.value)];
      paramIndex := paramIndex + 1;
    }
    var offset := (page - 1) * limit;
    assert Numeradas(condiciones, |valores|) && paramIndex == |condiciones|;
    EtapaPaginacion(p, fin, condiciones, valores, [Entero(limit), Entero(offset)]);
    var ligados := valores + [Entero(limit), Entero(offset)];
    assert ligados[paramIndex - 1] == Entero(limit) && ligados[paramIndex] == Entero(offset);
    q := Consulta(condiciones, ElegirCampo(p.sort), EsDescendente(p.order),
                  paramIndex, paramIndex + 1, ligados);
  }

  // -------------------------------------------------------------- pagination

  /** `Math.ceil(total / limit)` for a positive limit. */
  function TotalPaginas(total: nat, limit: int): (n: nat)
    requires limit >= 1
    ensures total <= n * limit
    ensures n > 0 ==> (n - 1) * limit < total
    ensures total == 0 <==> n == 0
  {
    var q := (total + limit - 1) / limit;
    var r := (total + limit - 1) % limit;
    assert total + limit - 1 == q * limit + r;
    assert (q - 1) * limit == q * limit - limit;
    q
  }

  /** `OFFSET (page-1)*limit LIMIT limit` over an ordered result. */
  function Pagina<T>(s: seq<T>, page: int, limit: int): (r: seq<T>)
    requires page >= 1 && limit >= 1
    ensures |r| <= limit
  {
    var desde := (page - 1) * limit;
    assert desde >= 0;
    s[Min(desde, |s|)..Min(desde + limit, |s|)]
  }

  /** The pages 1..n one after the other. */
  function Recorrido<T>(s: seq<T>, limit: int, n: nat): seq<T>
    requires limit >= 1
  {
    if n == 0 then [] else Recorrido(s, limit, n - 1) + Pagina(s, n, limit)
  }

  lemma {:induction false} RecorridoPrefijo<T>(s: seq<T>, limit: int, n: nat)
    requires limit >= 1
    ensures Recorrido(s, limit, n) == s[..Min(n * limit, |s|)]
  {
    if n > 0 {
      RecorridoPrefijo(s, limit, n - 1);
      assert (n - 1) * limit + limit == n * limit;
      assert (n - 1) * limit <= n * limit;
      var a, b := Min((n - 1) * limit, |s|), Min(n * limit, |s|);
      assert s[..a] + s[a..b] == s[..b];
    }
  }

  /** Reading pages 1..totalPages yields every matching row exactly once, in order. */
  lemma RecorridoCompleto<T>(s: seq<T>, limit: int)
    requires limit >= 1
    ensures Recorrido(s, limit, TotalPaginas(|s|, limit)) == s
  {
    RecorridoPrefijo(s, limit, TotalPaginas(|s|, limit));
  }

  /** A page has rows exactly when its number is at most the page count. */
  lemma PaginaNoVacia<T>(s: seq<T>, page: int, limit: int)
    requires page >= 1 && limit >= 1
    ensures Pagina(s, page, limit) != [] <==> page <= TotalPaginas(|s|, limit)
  {
    var n := TotalPaginas(|s|, limit);
    var desde := (page - 1) * limit;
    assert Pagina(s, page, limit) == s[Min(desde, |s|)..Min(desde + limit, |s|)];
    if page <= n {
      MulMonotone(page - 1, n - 1, limit);
      assert desde < |s|;
    } else {
      MulMonotone(n, page - 1, limit);
      assert desde >= |s|;
    }
  }

  // ------------------------------------------------------------------ views

  /** A line as the listing shows it, with its metal's current name. */
  datatype LineaVista = LineaVista(metalNombre: string, pesoKilos: real, valorKiloAplicado: real, subtotal: real)

  /** A listed purchase: the header, the executive's and the branch's names
      (LEFT JOINs, so possibly null) and its lines (null when none). */
  datatype TransaccionVista = TransaccionVista(
    id: int,
    fechaHora: Timestamp,
    clienteNombre: string,
    clienteRutDni: Option<string>,
    totalPagar: real,
    ejecutivoNombre: Option<string>,
    sucursalNombre: Option<string>,
    detalles: Option<seq<LineaVista>>)

  function SubtotalVista(l: LineaVista): real {
    l.subtotal
  }

  /** The lines joined with the catalog (an inner JOIN on the metal id). */
  function VistasLineas(metales: map<int, Metal>, ds: seq<Detalle>): (r: seq<LineaVista>)
    ensures |r| <= |ds|
  {
    if ds == [] then []
    else
      (if ds[0].metalId in metales
       then [LineaVista(metales[ds[0].metalId].nombre, ds[0].pesoKilos, ds[0].valorKiloAplicado, ds[0].subtotal)]
       else [])
      + VistasLineas(metales, ds[1..])
  }

  /** `LEFT JOIN usuarios u ON t.ejecutivo_id = u.id`. */
  function NombreEjecutivo(usuarios: seq<Usuario>, id: int): Option<string> {
    if usuarios == [] then None
    else if usuarios[0].id == id then Some(usuarios[0].nombres)
    else NombreEjecutivo(usuarios[1..], id)
  }

  function Vista(
    metales: map<int, Metal>, ds: seq<Detalle>, usuarios: seq<Usuario>, sucursales: seq<Sucursal>,
    h: Transaccion): TransaccionVista
  {
    var lineas := VistasLineas(metales, LinesOf(ds, h.id));
    TransaccionVista(
      h.id, h.fechaHora, h.clienteNombre, h.clienteRutDni, h.totalPagar,
      NombreEjecutivo(usuarios, h.ejecutivoId), NombreSucursal(sucursales, h.sucursalId),
      if lineas == [] then None else Some(lineas))
  }

  function Vistas(
    metales: map<int, Metal>, ds: seq<Detalle>, usuarios: seq<Usuario>, sucursales: seq<Sucursal>,
    hs: seq<Transaccion>): seq<TransaccionVista>
  {
    seq(|hs|, i requires 0 <= i < |hs| => Vista(metales, ds, usuarios, sucursales, hs[i]))
  }

  /** When every line's metal is in the catalog, the joined lines carry the
      weights, applied prices and subtotals that were recorded, one for one. */
  lemma {:induction false} VistasLineasFieles(metales: map<int, Metal>, ds: seq<Detalle>)
    requires forall i :: 0 <= i < |ds| ==> ds[i].metalId in metales
    ensures |VistasLineas(metales, ds)| == |ds|
    ensures forall i :: 0 <= i < |ds| ==>
      var l := VistasLineas(metales, ds)[i];
      l.pesoKilos == ds[i].pesoKilos && l.valorKiloAplicado == ds[i].valorKiloAplicado &&
      l.subtotal == ds[i].subtotal && l.metalNombre == metales[ds[i].metalId].nombre
    ensures SumOf(VistasLineas(metales, ds), SubtotalVista) == SumOf(ds, Subtotal)
  {
    if ds != [] {
      VistasLineasFieles(metales, ds[1..]);
      var r := VistasLineas(metales, ds);
      assert r[1..] == VistasLineas(metales, ds[1..]);
    }
  }

  /** Shown purchases never depend on current prices: two catalogs with the
      same ids and names give the same views, whatever prices they hold. */
  lemma {:induction false} VistasLineasSinPrecios(metales: map<int, Metal>, metales': map<int, Metal>, ds: seq<Detalle>)
    requires metales.Keys == metales'.Keys
    requires forall id :: id in metales ==> metales[id].nombre == metales'[id].nombre
    ensures VistasLineas(metales, ds) == VistasLineas(metales', ds)
  {
    if ds != [] {
      VistasLineasSinPrecios(metales, metales', ds[1..]);
    }
  }

  // ------------------------------------------------------------- the listing

  datatype Paginacion = Paginacion(total: int, page: int, limit: int, totalPages: int)

  datatype Listado = Listado(data: seq<TransaccionVista>, paginacion: Paginacion)

  /** The headers that pass the filter, in table order. */
  function Filtradas(p: ListParams, fin: FinRango, hs: seq<Transaccion>, ds: seq<Detalle>): seq<Transaccion> {
    Filter(hs, h => EnFiltro(p, fin, ds, h))
  }

  /** The filtered headers in the requested order. */
  function Ordenadas(p: ListParams, fin: FinRango, hs: seq<Transaccion>, ds: seq<Detalle>): seq<Transaccion> {
    SortBy(Filtradas(p, fin, hs, ds), ClaveOrden(ElegirCampo(p.sort)), EsDescendente(p.order))
  }

  /** listarTransacciones: the requested page of the ordered matches, and the
      match count read from the first returned row's `COUNT(*) OVER()` (so 0
      when the page is past the end).  The end date is compared as written. */
  method ListarTransacciones(db: Store, usuarios: seq<Usuario>, sucursales: seq<Sucursal>, p: ListParams)
    returns (r: Listado)
    requires NumeroPagina(p) >= 1 && TamanoPagina(p) >= 1
    ensures var page, limit := NumeroPagina(p), TamanoPagina(p);
      && var todas := Ordenadas(p, FinComoEscrito, db.transacciones, db.detalles);
      && var pagina := Pagina(todas, page, limit);
      && r.data == Vistas(db.metales, db.detalles, usuarios, sucursales, pagina)
      && r.paginacion.total == (if pagina != [] then |todas| else 0)
      && r.paginacion.page == page && r.paginacion.limit == limit
      && r.paginacion.totalPages == TotalPaginas(r.paginacion.total, limit)
  {
    var page, limit := p.page.GetOr(PaginaPorDefecto), p.limit.GetOr(LimitePorDefecto);
    var q := ConstruirConsulta(p, FinComoEscrito);
    var hs, ds := db.transacciones, db.detalles;
    SeleccionFiel(p, FinComoEscrito, q, hs, ds);
    var ordenadas := SortBy(Seleccionadas(q, hs, ds), ClaveOrden(q.campo), q.descendente);
    assert ordenadas == Ordenadas(p, FinComoEscrito, hs, ds);
    var limite := q.valores[q.limitParam - 1].n;
    var offset := q.valores[q.offsetParam - 1].n;
    LimitOffset(ordenadas, offset, limite, page, limit);
    var filas := ordenadas[Min(offset, |ordenadas|)..Min(offset + limite, |ordenadas|)];
    var total := if |filas| > 0 then |ordenadas| else 0;
    r := Listado(Vistas(db.metales, ds, usuarios, sucursales, filas),
                 Paginacion(total, page, limit, TotalPaginas(total, limit)));
  }

  /** The rows the built WHERE clause keeps, in table order. */
  function Seleccionadas(q: Consulta, hs: seq<Transaccion>, ds: seq<Detalle>): seq<Transaccion> {
    Filter(hs, h => CumpleTodas(q.condiciones, q.valores, ds, h))
  }

  /** A query whose WHERE clause means the filter selects the filtered headers. */
  lemma SeleccionFiel(p: ListParams, fin: FinRango, q: Consulta, hs: seq<Transaccion>, ds: seq<Detalle>)
    requires forall ds: seq<Detalle>, h: Transaccion ::
      CumpleTodas(q.condiciones, q.valores, ds, h) <==> EnFiltro(p, fin, ds, h)
    ensures Seleccionadas(q, hs, ds) == Filtradas(p, fin, hs, ds)
  {
    FilterCongruent(hs, h => CumpleTodas(q.condiciones, q.valores, ds, h), h => EnFiltro(p, fin, ds, h));
  }

  /** `LIMIT $l OFFSET $o` bound to `limit` and `(page-1)*limit` is the page. */
  lemma LimitOffset<T>(s: seq<T>, offset: int, limite: int, page: int, limit: int)
    requires page >= 1 && limit >= 1
    requires offset == (page - 1) * limit && limite == limit
    ensures 0 <= Min(offset, |s|) <= Min(offset + limite, |s|) <= |s|
    ensures s[Min(offset, |s|)..Min(offset + limite, |s|)] == Pagina(s, page, limit)
  {
    assert offset >= 0;
  }

  lemma TramoOrdenado<T>(s: seq<T>, a: int, b: int, key: T -> SortKey, descending: bool)
    requires 0 <= a <= b <= |s|
    requires SortedBy(s, key, descending)
    ensures SortedBy(s[a..b], key, descending)
    ensures forall x :: x in s[a..b] ==> x in s
  {
    var t := s[a..b];
    forall i, j | 0 <= i < j < |t| ensures Precedes(key(t[i]), key(t[j]), descending) {
      assert t[i] == s[a + i] && t[j] == s[a + j];
    }
  }

  /** A page of an ordered sequence is ordered and holds only its elements. */
  lemma PaginaDeOrdenada<T>(s: seq<T>, page: int, limit: int, key: T -> SortKey, descending: bool)
    requires page >= 1 && limit >= 1
    requires SortedBy(s, key, descending)
    ensures SortedBy(Pagina(s, page, limit), key, descending)
    ensures forall x :: x in Pagina(s, page, limit) ==> x in s
  {
    var desde := (page - 1) * limit;
    assert desde >= 0;
    assert Pagina(s, page, limit) == s[Min(desde, |s|)..Min(desde + limit, |s|)];
    TramoOrdenado(s, Min(desde, |s|), Min(desde + limit, |s|), key, descending);
  }

  /** Every listed purchase passes the filter, the page is in the requested
      order, and it holds at most `limit` purchases. */
  lemma PaginaCumpleFiltro(p: ListParams, fin: FinRango, hs: seq<Transaccion>, ds: seq<Detalle>)
    requires NumeroPagina(p) >= 1 && TamanoPagina(p) >= 1
    ensures var pagina := Pagina(Ordenadas(p, fin, hs, ds), NumeroPagina(p), TamanoPagina(p));
      && |pagina| <= TamanoPagina(p)
      && (forall h :: h in pagina ==> h in hs && EnFiltro(p, fin, ds, h))
      && SortedBy(pagina, ClaveOrden(ElegirCampo(p.sort)), EsDescendente(p.order))
  {
    var filtradas := Filtradas(p, fin, hs, ds);
    var todas := Ordenadas(p, fin, hs, ds);
    var key, desc := ClaveOrden(ElegirCampo(p.sort)), EsDescendente(p.order);
    SortBySorted(filtradas, key, desc);
    PaginaDeOrdenada(todas, NumeroPagina(p), TamanoPagina(p), key, desc);
    forall h | h in todas ensures h in hs && EnFiltro(p, fin, ds, h) {
      assert h in multiset(todas);
      assert h in filtradas;
    }
  }

  /** Reading every page of a sorted sequence meets exactly its elements, and
      the sort keeps the count. */
  lemma RecorridoDeOrdenada<T>(s: seq<T>, key: T -> SortKey, descending: bool, limit: int, x: T)
    requires limit >= 1
    ensures var todas := SortBy(s, key, descending);
      && (x in Recorrido(todas, limit, TotalPaginas(|todas|, limit)) <==> x in s)
      && |todas| == |s|
  {
    var todas := SortBy(s, key, descending);
    RecorridoCompleto(todas, limit);
    assert x in todas <==> x in multiset(s);
    assert |multiset(todas)| == |multiset(s)|;
  }

  /** A purchase is listed (on some page) exactly when it passes the filter;
      the total reported with an existing page is the number of such purchases. */
  lemma ListadoCompleto(p: ListParams, fin: FinRango, hs: seq<Transaccion>, ds: seq<Detalle>, h: Transaccion)
    requires TamanoPagina(p) >= 1
    ensures var todas := Ordenadas(p, fin, hs, ds);
      && (h in Recorrido(todas, TamanoPagina(p), TotalPaginas(|todas|, TamanoPagina(p))) <==>
          h in hs && EnFiltro(p, fin, ds, h))
      && |todas| == |Filtradas(p, fin, hs, ds)|
  {
    RecorridoDeOrdenada(Filtradas(p, fin, hs, ds), ClaveOrden(ElegirCampo(p.sort)), EsDescendente(p.order),
                        TamanoPagina(p), h);
  }

  // ------------------------------------------------ the end of the date range

  /** As written, the end of the range is `t.fecha_hora <= $n` with `$n` a
      `YYYY-MM-DD` date, which the database reads as the first instant of
      that day: of all the purchases made on the end day, only one made
      exactly at midnight passes. */
  lemma FinComoEscritoExcluyeElDia(t: Timestamp, d: int)
    requires DayOf(t) == d
    ensures Cumple(HastaFecha(1), [Dia(d)], [], Transaccion(1, None, 1, "", None, 0.0, t)) <==> t == StartOfDay(d)
  {
    StartOfDayOrder(t, d);
  }

  /** The corrected condition keeps every purchase of the end day and nothing
      after it: it is the same as comparing with the first instant of the
      following day. */
  lemma FinIncluyeElDia(t: Timestamp, d: int, ds: seq<Detalle>, h: Transaccion)
    requires h.fechaHora == t
    ensures Cumple(HastaDia(1), [Dia(d)], ds, h) <==> t < StartOfDay(d + 1)
  {
    StartOfDayOrder(t, d);
  }

  /** As written, a stored purchase made on the end day after midnight is on
      no page of the listing, although its calendar day is the end day. */
  lemma ListadoComoEscritoOmiteElDia(p: ListParams, hs: seq<Transaccion>, ds: seq<Detalle>, h: Transaccion)
    requires TamanoPagina(p) >= 1
    requires h in hs && p.fechaFin == Some(DayOf(h.fechaHora))
    requires h.fechaHora != StartOfDay(DayOf(h.fechaHora))
    ensures var todas := Ordenadas(p, FinComoEscrito, hs, ds);
      h !in Recorrido(todas, TamanoPagina(p), TotalPaginas(|todas|, TamanoPagina(p)))
  {
    ListadoCompleto(p, FinComoEscrito, hs, ds, h);
    StartOfDayOrder(h.fechaHora, DayOf(h.fechaHora));
  }

  /** Compared by calendar day, the end date never hides a stored purchase
      of that day: it is listed exactly when it passes the other filters. */
  lemma ListadoPorDiaIncluyeElDia(p: ListParams, hs: seq<Transaccion>, ds: seq<Detalle>, h: Transaccion)
    requires TamanoPagina(p) >= 1
    requires h in hs && p.fechaFin == Some(DayOf(h.fechaHora))
    ensures var todas := Ordenadas(p, FinPorDia, hs, ds);
      h in Recorrido(todas, TamanoPagina(p), TotalPaginas(|todas|, TamanoPagina(p))) <==>
      EnFiltro(p.(fechaFin := None), FinPorDia, ds, h)
  {
    ListadoCompleto(p, FinPorDia, hs, ds, h);
  }

  // ------------------------------------------------------ one purchase by id

  datatype Detalle200 = NotFound404 | Found200(vista: TransaccionVista)

  /** The header with id `id`, if there is one. */
  function BuscarCabecera(hs: seq<Transaccion>, id: int): (r: Option<Transaccion>)
    ensures r.Some? <==> id in HeaderIds(hs)
    ensures r.Some? ==> r.value in hs && r.value.id == id
  {
    if hs == [] then None
    else if hs[0].id == id then Some(hs[0])
    else
      assert HeaderIds(hs) == {hs[0].id} + HeaderIds(hs[1..]) by {
        assert hs == [hs[0]] + hs[1..];
      }
      BuscarCabecera(hs[1..], id)
  }

  /** obtenerTransaccion: 404 exactly when no header has that id, otherwise
      the view of the purchase with that id. */
  function ObtenerTransaccion(db: Store, usuarios: seq<Usuario>, sucursales: seq<Sucursal>, id: int): (r: Detalle200)
    reads db
    ensures r.NotFound404? <==> id !in HeaderIds(db.transacciones)
    ensures r.Found200? ==>
      exists h :: h in db.transacciones && h.id == id &&
        r.vista == Vista(db.metales, db.detalles, usuarios, sucursales, h)
  {
    match BuscarCabecera(db.transacciones, id)
    case None => NotFound404
    case Some(h) => Found200(Vista(db.metales, db.detalles, usuarios, sucursales, h))
  }

  /** In a valid store a purchase that is found shows all of its lines, and
      they add up to its total. */
  lemma ObtenidaCuadra(db: Store, usuarios: seq<Usuario>, sucursales: seq<Sucursal>, id: int)
    requires db.Valid()
    ensures var r := ObtenerTransaccion(db, usuarios, sucursales, id);
      r.Found200? ==> r.vista.detalles.Some? && r.vista.totalPagar == SumOf(r.vista.detalles.value, SubtotalVista)
  {
    var r := ObtenerTransaccion(db, usuarios, sucursales, id);
    if r.Found200? {
      var h :| h in db.transacciones && h.id == id &&
        r.vista == Vista(db.metales, db.detalles, usuarios, sucursales, h);
      var hs, ds := db.transacciones, db.detalles;
      var i :| 0 <= i < |hs| && hs[i] == h;
      assert Balanced(ds, hs[i]);
      LinesCatalogued(db.metales, hs, ds, db.nextTransaccionId, h.id);
      VistasLineasFieles(db.metales, LinesOf(ds, h.id));
    }
  }
}
