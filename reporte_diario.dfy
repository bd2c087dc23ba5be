/** The daily report: today's purchase lines grouped by metal name, with the
    kilos and the amount paid summed and the purchases counted per metal,
    heaviest metal first; and the rows of its spreadsheet export. */
module ReporteDiario {
  import opened Common
  import opened Schema
  import opened Sorting
  import opened Database

  /** A line of today joined with its metal's name. */
  datatype LineaDelDia = LineaDelDia(metal: string, detalle: Detalle)

  /** One row of the report. */
  datatype FilaReporte = FilaReporte(metal: string, totalKilos: real, totalPagado: real, cantidadTransacciones: nat)

  function Kilos(l: LineaDelDia): real {
    l.detalle.pesoKilos
  }

  function Pagado(l: LineaDelDia): real {
    l.detalle.subtotal
  }

  /** Some header with the line's id was recorded on day `hoy`. */
  predicate DelDia(hs: seq<Transaccion>, id: int, hoy: int) {
    exists h | h in hs :: h.id == id && DayOf(h.fechaHora) == hoy
  }

  /** `FROM transaccion_detalles td JOIN metales m ... JOIN transacciones t ...
      WHERE t.fecha_hora::date = CURRENT_DATE`, in table order. */
  function LineasDelDia(metales: map<int, Metal>, hs: seq<Transaccion>, ds: seq<Detalle>, hoy: int): (r: seq<LineaDelDia>)
    ensures forall l :: l in r ==>
      && l.detalle in ds && l.detalle.metalId in metales
      && l.metal == metales[l.detalle.metalId].nombre && DelDia(hs, l.detalle.transaccionId, hoy)
    ensures forall d :: d in ds && d.metalId in metales && DelDia(hs, d.transaccionId, hoy) ==>
      LineaDelDia(metales[d.metalId].nombre, d) in r
  {
    if ds == [] then []
    else
      (if ds[0].metalId in metales && DelDia(hs, ds[0].transaccionId, hoy)
       then [LineaDelDia(metales[ds[0].metalId].nombre, ds[0])]
       else [])
      + LineasDelDia(metales, hs, ds[1..], hoy)
  }

  // ---------------------------------------------------------------- grouping

  /** The lines of one group. */
  function Grupo(ls: seq<LineaDelDia>, nombre: string): seq<LineaDelDia> {
    Filter(ls, (l: LineaDelDia) => l.metal == nombre)
  }

  /** The metal names of the lines, each once, in order of first appearance. */
  function Nombres(ls: seq<LineaDelDia>): (ns: seq<string>)
    ensures Distinct(ns)
    ensures forall n :: n in ns <==> exists l :: l in ls && l.metal == n
    decreases |ls|
  {
    if ls == [] then []
    else
      var previos := Nombres(ls[..|ls| - 1]);
      var ultimo := ls[|ls| - 1];
      assert ls == ls[..|ls| - 1] + [ultimo];
      if ultimo.metal in previos then previos else previos + [ultimo.metal]
  }

  function IdsDe(ls: seq<LineaDelDia>): set<int> {
    set l | l in ls :: l.detalle.transaccionId
  }

  /** `SUM(td.peso_kilos)`, `SUM(td.subtotal)` and
      `COUNT(DISTINCT td.transaccion_id)` over one group. */
  function Agregado(ls: seq<LineaDelDia>, nombre: string): FilaReporte {
    var g := Grupo(ls, nombre);
    FilaReporte(nombre, SumOf(g, Kilos), SumOf(g, Pagado), |IdsDe(g)|)
  }

  /** `GROUP BY m.nombre`: one row per metal sold, none twice, each with the
      sums and the purchase count of that metal's lines. */
  function Agrupar(ls: seq<LineaDelDia>): (r: seq<FilaReporte>)
    ensures forall i, j :: 0 <= i < j < |r| ==> r[i].metal != r[j].metal
    ensures forall n :: EnReporte(r, n) <==> Vendido(ls, n)
    ensures forall i :: 0 <= i < |r| ==>
      var g := Filter(ls, (l: LineaDelDia) => l.metal == r[i].metal);
      && r[i].totalKilos == SumOf(g, Kilos)
      && r[i].totalPagado == SumOf(g, Pagado)
      && r[i].cantidadTransacciones == |set l | l in g :: l.detalle.transaccionId|
  {
    var ns := Nombres(ls);
    var r := seq(|ns|, i requires 0 <= i < |ns| => Agregado(ls, ns[i]));
    assert forall n :: EnReporte(r, n) <==> n in ns by {
      forall n ensures EnReporte(r, n) <==> n in ns {
        if n in ns {
          var k :| 0 <= k < |ns| && ns[k] == n;
          assert r[k].metal == n;
        }
      }
    }
    r
  }

  function ClaveKilos(f: FilaReporte): SortKey {
    RealKey(f.totalKilos)
  }

  /** obtenerReporteDiario: `GROUP BY m.nombre ORDER BY total_kilos DESC`. */
  function Reporte(metales: map<int, Metal>, hs: seq<Transaccion>, ds: seq<Detalle>, hoy: int): seq<FilaReporte> {
    SortBy(Agrupar(LineasDelDia(metales, hs, ds, hoy)), ClaveKilos, true)
  }

  // ---------------------------------------------------- shape of the report

  /** No lines today, no rows; some lines, some rows. */
  lemma ReporteVacio(metales: map<int, Metal>, hs: seq<Transaccion>, ds: seq<Detalle>, hoy: int)
    ensures Reporte(metales, hs, ds, hoy) == [] <==> LineasDelDia(metales, hs, ds, hoy) == []
  {
    var ls := LineasDelDia(metales, hs, ds, hoy);
    var r := Reporte(metales, hs, ds, hoy);
    assert |multiset(r)| == |Agrupar(ls)|;
    if ls != [] {
      assert ls[0] in ls;
      assert ls[0].metal in Nombres(ls);
    }
  }

  /** The rows are ordered by kilos, heaviest first. */
  lemma ReporteOrdenado(metales: map<int, Metal>, hs: seq<Transaccion>, ds: seq<Detalle>, hoy: int)
    ensures forall i, j :: 0 <= i < j < |Reporte(metales, hs, ds, hoy)| ==>
      Reporte(metales, hs, ds, hoy)[i].totalKilos >= Reporte(metales, hs, ds, hoy)[j].totalKilos
  {
    var r := Reporte(metales, hs, ds, hoy);
    SortBySorted(Agrupar(LineasDelDia(metales, hs, ds, hoy)), ClaveKilos, true);
    forall i, j | 0 <= i < j < |r| ensures r[i].totalKilos >= r[j].totalKilos {
      assert Precedes(ClaveKilos(r[i]), ClaveKilos(r[j]), true);
    }
  }

  /** Some line of `ls` is of metal `n`. */
  predicate Vendido(ls: seq<LineaDelDia>, n: string) {
    exists l :: l in ls && l.metal == n
  }

  /** Some row of `r` is about metal `n`. */
  predicate EnReporte(r: seq<FilaReporte>, n: string) {
    exists i :: 0 <= i < |r| && r[i].metal == n
  }

  /** Each grouped row is the aggregate of its own metal, a metal sold. */
  lemma AgrupadasSonAgregados(ls: seq<LineaDelDia>)
    ensures var g := Agrupar(ls);
      forall i :: 0 <= i < |g| ==> g[i] == Agregado(ls, g[i].metal) && Vendido(ls, g[i].metal)
  {
    var g := Agrupar(ls);
    var ns := Nombres(ls);
    forall i | 0 <= i < |g| ensures g[i] == Agregado(ls, g[i].metal) && Vendido(ls, g[i].metal) {
      assert g[i] == Agregado(ls, ns[i]);
      assert ns[i] in ns;
    }
  }

  /** Each row of the report is the aggregate of its metal's lines of today. */
  lemma FilasSonAgregados(metales: map<int, Metal>, hs: seq<Transaccion>, ds: seq<Detalle>, hoy: int)
    ensures var ls := LineasDelDia(metales, hs, ds, hoy);
      var r := Reporte(metales, hs, ds, hoy);
      forall i :: 0 <= i < |r| ==> r[i] == Agregado(ls, r[i].metal) && Vendido(ls, r[i].metal)
  {
    var ls := LineasDelDia(metales, hs, ds, hoy);
    var g := Agrupar(ls);
    AgrupadasSonAgregados(ls);
    OrdenarConservaAgregados(ls, g);
    assert Reporte(metales, hs, ds, hoy) == SortBy(g, ClaveKilos, true);
  }

  /** Sorting rows that are aggregates of metals sold yields such rows only. */
  lemma OrdenarConservaAgregados(ls: seq<LineaDelDia>, g: seq<FilaReporte>)
    requires forall i :: 0 <= i < |g| ==> g[i] == Agregado(ls, g[i].metal) && Vendido(ls, g[i].metal)
    ensures var r := SortBy(g, ClaveKilos, true);
      forall i :: 0 <= i < |r| ==> r[i] == Agregado(ls, r[i].metal) && Vendido(ls, r[i].metal)
  {
    var r := SortBy(g, ClaveKilos, true);
    forall i | 0 <= i < |r| ensures r[i] == Agregado(ls, r[i].metal) && Vendido(ls, r[i].metal) {
      assert r[i] in multiset(g);
      var k :| 0 <= k < |g| && g[k] == r[i];
    }
  }

  /** No two rows are about the same metal. */
  lemma UnaFilaPorMetal(metales: map<int, Metal>, hs: seq<Transaccion>, ds: seq<Detalle>, hoy: int)
    ensures var r := Reporte(metales, hs, ds, hoy);
      forall i, j :: 0 <= i < j < |r| ==> r[i].metal != r[j].metal
  {
    var ls := LineasDelDia(metales, hs, ds, hoy);
    var g := Agrupar(ls);
    var r := Reporte(metales, hs, ds, hoy);
    FilasSonAgregados(metales, hs, ds, hoy);
    assert Distinct(g) by {
      forall i, j | 0 <= i < j < |g| ensures g[i] != g[j] {
        assert g[i].metal == Nombres(ls)[i] && g[j].metal == Nombres(ls)[j];
      }
    }
    DistinctAtMostOnce(g);
    forall i, j | 0 <= i < j < |r| ensures r[i].metal != r[j].metal {
      AtMostOnceDistinct(r, i, j);
    }
  }

  /** Sorting the rows keeps every metal that has a row. */
  lemma EnReporteOrdenado(g: seq<FilaReporte>, n: string)
    requires EnReporte(g, n)
    ensures EnReporte(SortBy(g, ClaveKilos, true), n)
  {
    var k :| 0 <= k < |g| && g[k].metal == n;
    var r := SortBy(g, ClaveKilos, true);
    assert g[k] in multiset(r);
    var i :| 0 <= i < |r| && r[i] == g[k];
  }

  /** Every metal sold today has a row. */
  lemma VendidoEnReporte(ls: seq<LineaDelDia>, n: string)
    requires Vendido(ls, n)
    ensures EnReporte(SortBy(Agrupar(ls), ClaveKilos, true), n)
  {
    EnReporteOrdenado(Agrupar(ls), n);
  }

  /** The report has a row for a metal exactly when some line of today is of that metal. */
  lemma MetalesDelReporte(metales: map<int, Metal>, hs: seq<Transaccion>, ds: seq<Detalle>, hoy: int)
    ensures var ls := LineasDelDia(metales, hs, ds, hoy);
      var r := Reporte(metales, hs, ds, hoy);
      forall n :: EnReporte(r, n) <==> Vendido(ls, n)
  {
    var ls := LineasDelDia(metales, hs, ds, hoy);
    FilasSonAgregados(metales, hs, ds, hoy);
    forall n | Vendido(ls, n) ensures EnReporte(Reporte(metales, hs, ds, hoy), n) {
      VendidoEnReporte(ls, n);
    }
  }

  // ------------------------------------------------------------ conservation

  /** The sum of `f` over each named group, name by name. */
  function TotalPorNombres(ls: seq<LineaDelDia>, ns: seq<string>, f: LineaDelDia -> real): real {
    if ns == [] then 0.0 else SumOf(Grupo(ls, ns[0]), f) + TotalPorNombres(ls, ns[1..], f)
  }

  lemma {:induction false} FilterAppend<T(!new)>(a: seq<T>, b: seq<T>, p: T -> bool)
    ensures Filter(a + b, p) == Filter(a, p) + Filter(b, p)
  {
    if a == [] {
      assert a + b == b;
    } else {
      assert (a + b)[1..] == a[1..] + b;
      FilterAppend(a[1..], b, p);
    }
  }

  lemma GrupoAppend(ls: seq<LineaDelDia>, l: LineaDelDia, n: string, f: LineaDelDia -> real)
    ensures SumOf(Grupo(ls + [l], n), f) == SumOf(Grupo(ls, n), f) + (if l.metal == n then f(l) else 0.0)
  {
    FilterAppend(ls, [l], (x: LineaDelDia) => x.metal == n);
    SumOfAppend(Grupo(ls, n), Filter([l], (x: LineaDelDia) => x.metal == n), f);
    assert Filter([l], (x: LineaDelDia) => x.metal == n) == if l.metal == n then [l] else [];
  }

  /** Adding a line changes the name-by-name total only in its own group. */
  lemma {:induction false} TotalPorNombresAppend(ls: seq<LineaDelDia>, l: LineaDelDia, ns: seq<string>, f: LineaDelDia -> real)
    requires Distinct(ns)
    ensures TotalPorNombres(ls + [l], ns, f) ==
      TotalPorNombres(ls, ns, f) + (if l.metal in ns then f(l) else 0.0)
  {
    if ns != [] {
      GrupoAppend(ls, l, ns[0], f);
      assert Distinct(ns[1..]) by {
        forall i, j | 0 <= i < j < |ns[1..]| ensures ns[1..][i] != ns[1..][j] {
          assert ns[1..][i] == ns[i + 1] && ns[1..][j] == ns[j + 1];
        }
      }
      TotalPorNombresAppend(ls, l, ns[1..], f);
      assert l.metal in ns <==> l.metal == ns[0] || l.metal in ns[1..] by {
        assert ns == [ns[0]] + ns[1..];
      }
      if l.metal == ns[0] {
        assert l.metal !in ns[1..] by {
          forall k | 0 <= k < |ns[1..]| ensures ns[1..][k] != ns[0] {
            assert ns[1..][k] == ns[k + 1];
          }
        }
      }
    }
  }

  lemma {:induction false} TotalPorNombresAgregar(ls: seq<LineaDelDia>, ns: seq<string>, n: string, f: LineaDelDia -> real)
    ensures TotalPorNombres(ls, ns + [n], f) == TotalPorNombres(ls, ns, f) + SumOf(Grupo(ls, n), f)
  {
    if ns == [] {
      assert (ns + [n])[1..] == [];
    } else {
      assert (ns + [n])[1..] == ns[1..] + [n];
      TotalPorNombresAgregar(ls, ns[1..], n, f);
    }
  }

  lemma {:induction false} GrupoVacio(ls: seq<LineaDelDia>, n: string)
    requires forall l :: l in ls ==> l.metal != n
    ensures Grupo(ls, n) == []
  {
    if ls != [] {
      assert ls[0] in ls;
      assert forall l :: l in ls[1..] ==> l in ls;
      GrupoVacio(ls[1..], n);
    }
  }

  /** Grouping neither loses nor duplicates a line: summed over all groups,
      `f` totals what it totals over the lines. */
  lemma {:induction false} AgruparConserva(ls: seq<LineaDelDia>, f: LineaDelDia -> real)
    ensures TotalPorNombres(ls, Nombres(ls), f) == SumOf(ls, f)
    decreases |ls|
  {
    if ls != [] {
      var previas := ls[..|ls| - 1];
      var l := ls[|ls| - 1];
      assert ls == previas + [l];
      AgruparConserva(previas, f);
      var ns := Nombres(previas);
      TotalPorNombresAppend(previas, l, ns, f);
      SumOfAppend(previas, [l], f);
      assert SumOf([l], f) == f(l);
      if l.metal !in ns {
        TotalPorNombresAgregar(ls, ns, l.metal, f);
        GrupoVacio(previas, l.metal);
        GrupoAppend(previas, l, l.metal, f);
        assert TotalPorNombres(ls, ns, f) == TotalPorNombres(previas, ns, f);
      }
    }
  }

  lemma {:induction false} SumaDeAgregados(ls: seq<LineaDelDia>, ns: seq<string>)
    ensures SumOf(seq(|ns|, i requires 0 <= i < |ns| => Agregado(ls, ns[i])), (r: FilaReporte) => r.totalPagado)
      == TotalPorNombres(ls, ns, Pagado)
    ensures SumOf(seq(|ns|, i requires 0 <= i < |ns| => Agregado(ls, ns[i])), (r: FilaReporte) => r.totalKilos)
      == TotalPorNombres(ls, ns, Kilos)
  {
    if ns != [] {
      SumaDeAgregados(ls, ns[1..]);
      var s := seq(|ns|, i requires 0 <= i < |ns| => Agregado(ls, ns[i]));
      assert s[1..] == seq(|ns[1..]|, i requires 0 <= i < |ns[1..]| => Agregado(ls, ns[1..][i]));
    }
  }

  /** The report pays out, and weighs, exactly what today's lines recorded. */
  lemma ReporteConserva(metales: map<int, Metal>, hs: seq<Transaccion>, ds: seq<Detalle>, hoy: int)
    ensures var ls := LineasDelDia(metales, hs, ds, hoy);
      var r := Reporte(metales, hs, ds, hoy);
      && SumOf(r, (f: FilaReporte) => f.totalPagado) == SumOf(ls, Pagado)
      && SumOf(r, (f: FilaReporte) => f.totalKilos) == SumOf(ls, Kilos)
  {
    var ls := LineasDelDia(metales, hs, ds, hoy);
    var g := Agrupar(ls);
    SumOfSortBy(g, ClaveKilos, true, (f: FilaReporte) => f.totalPagado);
    SumOfSortBy(g, ClaveKilos, true, (f: FilaReporte) => f.totalKilos);
    SumaDeAgregados(ls, Nombres(ls));
    AgruparConserva(ls, Pagado);
    AgruparConserva(ls, Kilos);
  }

  /** Every row counts at least one purchase and no more purchases than it has lines. */
  lemma CuentaDeCompras(ls: seq<LineaDelDia>, n: string)
    requires n in Nombres(ls)
    ensures 1 <= Agregado(ls, n).cantidadTransacciones <= |Grupo(ls, n)|
  {
    var g := Grupo(ls, n);
    var l :| l in ls && l.metal == n;
    assert l in g;
    assert l.detalle.transaccionId in IdsDe(g);
    IdsAcotados(g);
  }

  lemma {:induction false} IdsAcotados(ls: seq<LineaDelDia>)
    ensures |IdsDe(ls)| <= |ls|
  {
    if ls != [] {
      IdsAcotados(ls[1..]);
      assert IdsDe(ls) == IdsDe(ls[1..]) + {ls[0].detalle.transaccionId} by {
        assert ls == [ls[0]] + ls[1..];
      }
    }
  }

  /** The report is read from the recorded lines only: catalogs that agree on
      ids and names give the same report, whatever prices they hold now. */
  lemma {:induction false} ReporteSinPrecios(
    metales: map<int, Metal>, metales': map<int, Metal>, hs: seq<Transaccion>, ds: seq<Detalle>, hoy: int)
    requires metales.Keys == metales'.Keys
    requires forall id :: id in metales ==> metales[id].nombre == metales'[id].nombre
    ensures Reporte(metales, hs, ds, hoy) == Reporte(metales', hs, ds, hoy)
  {
    LineasSinPrecios(metales, metales', hs, ds, hoy);
  }

  lemma {:induction false} LineasSinPrecios(
    metales: map<int, Metal>, metales': map<int, Metal>, hs: seq<Transaccion>, ds: seq<Detalle>, hoy: int)
    requires metales.Keys == metales'.Keys
    requires forall id :: id in metales ==> metales[id].nombre == metales'[id].nombre
    ensures LineasDelDia(metales, hs, ds, hoy) == LineasDelDia(metales', hs, ds, hoy)
  {
    if ds != [] {
      LineasSinPrecios(metales, metales', hs, ds[1..], hoy);
    }
  }

  // ------------------------------------------------------------------ export

  /** A row of the exported sheet. */
  datatype FilaExcel = FilaExcel(metal: string, transacciones: int, pesoTotalKg: real, totalPagado: int)

  /** The row mapping of the export: the amount is rounded with Math.round,
      so it is within half a unit of the report's. */
  function Exportar(f: FilaReporte): (e: FilaExcel)
    ensures e.metal == f.metal && e.transacciones == f.cantidadTransacciones && e.pesoTotalKg == f.totalKilos
    ensures f.totalPagado - 0.5 < e.totalPagado as real <= f.totalPagado + 0.5
  {
    FilaExcel(f.metal, f.cantidadTransacciones, f.totalKilos, MathRound(f.totalPagado))
  }

  function Exportado(r: seq<FilaReporte>): seq<FilaExcel> {
    seq(|r|, i requires 0 <= i < |r| => Exportar(r[i]))
  }

  function TotalExcel(e: FilaExcel): real {
    e.totalPagado as real
  }

  /** Rounding row by row moves the sheet's grand total by at most half a
      unit per row from the report's. */
  lemma {:induction false} ExportadoCerca(r: seq<FilaReporte>)
    ensures var total := SumOf(r, (f: FilaReporte) => f.totalPagado);
      var hoja := SumOf(Exportado(r), TotalExcel);
      total - 0.5 * |r| as real <= hoja <= total + 0.5 * |r| as real
  {
    if r != [] {
      ExportadoCerca(r[1..]);
      assert Exportado(r)[1..] == Exportado(r[1..]);
    }
  }
}
