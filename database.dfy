/** The tables the purchase ledger lives in, and the invariants that every
    handler writing to them keeps: the catalog's names are unique, and every
    purchase header owns at least one line and totals exactly its lines. */
module Database {
  import opened Common
  import opened Schema

  function Subtotal(d: Detalle): real {
    d.subtotal
  }

  /** The lines of purchase `id`, in the order they were inserted. */
  function LinesOf(ds: seq<Detalle>, id: int): (r: seq<Detalle>)
    ensures |r| <= |ds|
    ensures forall d :: d in r <==> d in ds && d.transaccionId == id
  {
    if ds == [] then []
    else (if ds[0].transaccionId == id then [ds[0]] else []) + LinesOf(ds[1..], id)
  }

  /** The lines of a purchase are exactly the table's rows with its id, kept
      in table order: the general WHERE selection on `transaccion_id`. */
  lemma {:induction false} LinesOfInOrder(ds: seq<Detalle>, id: int)
    ensures LinesOf(ds, id) == Filter(ds, (d: Detalle) => d.transaccionId == id)
  {
    if ds != [] {
      LinesOfInOrder(ds[1..], id);
    }
  }

  function HeaderIds(hs: seq<Transaccion>): set<int> {
    set h | h in hs :: h.id
  }

  /** Headers are appended with ids drawn from an increasing sequence. */
  predicate IdsIncreasing(hs: seq<Transaccion>) {
    forall i, j :: 0 <= i < j < |hs| ==> hs[i].id < hs[j].id
  }

  /** A line points at a recorded header and at a metal of the catalog, has a
      positive weight, and its subtotal is weight times applied price. */
  predicate DetalleValid(metales: map<int, Metal>, hs: seq<Transaccion>, d: Detalle) {
    && d.transaccionId in HeaderIds(hs)
    && d.metalId in metales
    && d.pesoKilos > 0.0
    && d.subtotal == d.pesoKilos * d.valorKiloAplicado
  }

  /** A header owns at least one line and its total is the sum of their subtotals. */
  predicate Balanced(ds: seq<Detalle>, h: Transaccion) {
    LinesOf(ds, h.id) != [] && h.totalPagar == SumOf(LinesOf(ds, h.id), Subtotal)
  }

  predicate LedgerValid(metales: map<int, Metal>, hs: seq<Transaccion>, ds: seq<Detalle>, nextId: int) {
    && IdsIncreasing(hs)
    && (forall i :: 0 <= i < |hs| ==> hs[i].id < nextId)
    && (forall i :: 0 <= i < |ds| ==> DetalleValid(metales, hs, ds[i]))
    && (forall i :: 0 <= i < |hs| ==> Balanced(ds, hs[i]))
  }

  /** Metal names are unique (the column's UNIQUE constraint) and never empty,
      and every id was drawn from the sequence before its current value. */
  predicate CatalogValid(metales: map<int, Metal>, nextId: int) {
    && (forall id :: id in metales ==> id < nextId && metales[id].nombre != "")
    && (forall a, b :: a in metales && b in metales && a != b ==> metales[a].nombre != metales[b].nombre)
  }

  /** The database: the metal catalog keyed by id, the purchase headers and
      their lines in insertion order, and the two id sequences (SERIAL
      columns) that number new metals and new purchases. */
  class Store {
    var metales: map<int, Metal>
    var nextMetalId: int
    var transacciones: seq<Transaccion>
    var detalles: seq<Detalle>
    var nextTransaccionId: int

    ghost predicate Valid()
      reads this
    {
      CatalogValid(metales, nextMetalId) && LedgerValid(metales, transacciones, detalles, nextTransaccionId)
    }

    /** A freshly created database: empty tables, sequences starting at 1. */
    constructor ()
      ensures Valid()
      ensures metales == map[] && transacciones == [] && detalles == []
      ensures nextMetalId == 1 && nextTransaccionId == 1
    {
      metales := map[];
      nextMetalId := 1;
      transacciones := [];
      detalles := [];
      nextTransaccionId := 1;
    }

    /** COMMIT of a purchase whose header drew `h.id` from the sequence: the
        header and its lines become visible together, and the invariant holds. */
    method Registrar(h: Transaccion, lineas: seq<Detalle>)
      requires CatalogValid(metales, nextMetalId)
      requires LedgerValid(metales, transacciones, detalles, h.id) && nextTransaccionId == h.id + 1
      requires lineas != [] && NewLinesValid(metales, h.id, lineas)
      requires h.totalPagar == SumOf(lineas, Subtotal)
      modifies this
      ensures Valid()
      ensures transacciones == old(transacciones) + [h] && detalles == old(detalles) + lineas
      ensures metales == old(metales) && nextMetalId == old(nextMetalId)
      ensures nextTransaccionId == old(nextTransaccionId)
    {
      AppendPurchaseKeepsLedger(metales, transacciones, detalles, h.id, h, lineas);
      transacciones := transacciones + [h];
      detalles := detalles + lineas;
    }
  }

  lemma {:induction false} LinesOfAppend(a: seq<Detalle>, b: seq<Detalle>, id: int)
    ensures LinesOf(a + b, id) == LinesOf(a, id) + LinesOf(b, id)
  {
    if a == [] {
      assert a + b == b;
    } else {
      assert (a + b)[1..] == a[1..] + b;
      LinesOfAppend(a[1..], b, id);
    }
  }

  lemma {:induction false} LinesOfNone(ds: seq<Detalle>, id: int)
    requires forall i :: 0 <= i < |ds| ==> ds[i].transaccionId != id
    ensures LinesOf(ds, id) == []
  {
    if ds != [] {
      LinesOfNone(ds[1..], id);
    }
  }

  lemma {:induction false} LinesOfAll(ds: seq<Detalle>, id: int)
    requires forall i :: 0 <= i < |ds| ==> ds[i].transaccionId == id
    ensures LinesOf(ds, id) == ds
  {
    if ds != [] {
      LinesOfAll(ds[1..], id);
      assert ds == [ds[0]] + ds[1..];
    }
  }

  /** Every line of a purchase in a valid ledger names a catalogued metal. */
  lemma LinesCatalogued(metales: map<int, Metal>, hs: seq<Transaccion>, ds: seq<Detalle>, nextId: int, id: int)
    requires LedgerValid(metales, hs, ds, nextId)
    ensures forall k :: 0 <= k < |LinesOf(ds, id)| ==> LinesOf(ds, id)[k].metalId in metales
  {
    var lineas := LinesOf(ds, id);
    forall k | 0 <= k < |lineas| ensures lineas[k].metalId in metales {
      assert lineas[k] in lineas;
      var j :| 0 <= j < |ds| && ds[j] == lineas[k];
      assert DetalleValid(metales, hs, ds[j]);
    }
  }

  /** A header exists exactly when some line belongs to it. */
  lemma {:induction false} HeaderIffLines(metales: map<int, Metal>, hs: seq<Transaccion>, ds: seq<Detalle>, nextId: int, id: int)
    requires LedgerValid(metales, hs, ds, nextId)
    ensures id in HeaderIds(hs) <==> LinesOf(ds, id) != []
  {
    if id in HeaderIds(hs) {
      var i :| 0 <= i < |hs| && hs[i].id == id;
      assert Balanced(ds, hs[i]);
    }
    if LinesOf(ds, id) != [] {
      var d := LinesOf(ds, id)[0];
      var k :| 0 <= k < |ds| && ds[k] == d;
      assert DetalleValid(metales, hs, ds[k]);
    }
  }

  /** No recorded line belongs to an id the sequence has not handed out yet. */
  lemma {:induction false} NoLinesBeyondSequence(
    metales: map<int, Metal>, hs: seq<Transaccion>, ds: seq<Detalle>, nextId: int, id: int)
    requires LedgerValid(metales, hs, ds, nextId)
    requires id >= nextId
    ensures LinesOf(ds, id) == []
  {
    forall k | 0 <= k < |ds| ensures ds[k].transaccionId != id {
      assert DetalleValid(metales, hs, ds[k]);
    }
    LinesOfNone(ds, id);
  }

  /** The lines a purchase adds: all of its id, of catalog metals, with
      positive weights and subtotal = weight x applied price. */
  predicate NewLinesValid(metales: map<int, Metal>, id: int, lines: seq<Detalle>) {
    forall i :: 0 <= i < |lines| ==>
      && lines[i].transaccionId == id
      && lines[i].metalId in metales
      && lines[i].pesoKilos > 0.0
      && lines[i].subtotal == lines[i].pesoKilos * lines[i].valorKiloAplicado
  }

  lemma {:induction false} AppendKeepsDetails(
    metales: map<int, Metal>, hs: seq<Transaccion>, ds: seq<Detalle>, nextId: int,
    h: Transaccion, lines: seq<Detalle>)
    requires LedgerValid(metales, hs, ds, nextId)
    requires NewLinesValid(metales, h.id, lines)
    ensures forall i :: 0 <= i < |ds + lines| ==> DetalleValid(metales, hs + [h], (ds + lines)[i])
  {
    var hs', ds' := hs + [h], ds + lines;
    assert HeaderIds(hs') == HeaderIds(hs) + {h.id};
    forall i | 0 <= i < |ds'| ensures DetalleValid(metales, hs', ds'[i]) {
      if i < |ds| {
        assert ds'[i] == ds[i] && DetalleValid(metales, hs, ds[i]);
      } else {
        assert ds'[i] == lines[i - |ds|];
      }
    }
  }

  /** Lines of another purchase leave a balanced header balanced. */
  lemma OtherLinesKeepBalance(ds: seq<Detalle>, lines: seq<Detalle>, h: Transaccion)
    requires Balanced(ds, h)
    requires forall i :: 0 <= i < |lines| ==> lines[i].transaccionId != h.id
    ensures Balanced(ds + lines, h)
  {
    LinesOfAppend(ds, lines, h.id);
    LinesOfNone(lines, h.id);
    assert LinesOf(ds, h.id) + [] == LinesOf(ds, h.id);
  }

  /** A header with no earlier lines is balanced by its own lines. */
  lemma OwnLinesBalance(ds: seq<Detalle>, lines: seq<Detalle>, h: Transaccion)
    requires LinesOf(ds, h.id) == [] && lines != []
    requires forall i :: 0 <= i < |lines| ==> lines[i].transaccionId == h.id
    requires h.totalPagar == SumOf(lines, Subtotal)
    ensures Balanced(ds + lines, h)
  {
    LinesOfAppend(ds, lines, h.id);
    LinesOfAll(lines, h.id);
    assert [] + lines == lines;
  }

  lemma {:induction false} AppendKeepsBalance(
    metales: map<int, Metal>, hs: seq<Transaccion>, ds: seq<Detalle>, nextId: int,
    h: Transaccion, lines: seq<Detalle>)
    requires LedgerValid(metales, hs, ds, nextId)
    requires h.id >= nextId && lines != []
    requires NewLinesValid(metales, h.id, lines)
    requires h.totalPagar == SumOf(lines, Subtotal)
    ensures forall i :: 0 <= i < |hs + [h]| ==> Balanced(ds + lines, (hs + [h])[i])
  {
    var hs' := hs + [h];
    NoLinesBeyondSequence(metales, hs, ds, nextId, h.id);
    OwnLinesBalance(ds, lines, h);
    forall i | 0 <= i < |hs'| ensures Balanced(ds + lines, hs'[i]) {
      if i < |hs| {
        assert hs'[i] == hs[i] && Balanced(ds, hs[i]);
        OtherLinesKeepBalance(ds, lines, hs[i]);
      } else {
        assert hs'[i] == h;
      }
    }
  }

  /** Appending one header with a fresh id together with its non-empty lines,
      whose subtotals sum to the header's total, keeps the ledger valid. */
  lemma {:induction false} AppendPurchaseKeepsLedger(
    metales: map<int, Metal>, hs: seq<Transaccion>, ds: seq<Detalle>, nextId: int,
    h: Transaccion, lines: seq<Detalle>)
    requires LedgerValid(metales, hs, ds, nextId)
    requires h.id >= nextId && lines != []
    requires NewLinesValid(metales, h.id, lines)
    requires h.totalPagar == SumOf(lines, Subtotal)
    ensures LedgerValid(metales, hs + [h], ds + lines, h.id + 1)
  {
    AppendKeepsDetails(metales, hs, ds, nextId, h, lines);
    AppendKeepsBalance(metales, hs, ds, nextId, h, lines);
  }

  /** The ledger only depends on the catalog through which ids exist, so a
      catalog change that keeps every id leaves recorded purchases valid. */
  lemma {:induction false} CatalogGrowthKeepsLedger(
    metales: map<int, Metal>, metales': map<int, Metal>,
    hs: seq<Transaccion>, ds: seq<Detalle>, nextId: int)
    requires LedgerValid(metales, hs, ds, nextId)
    requires metales.Keys <= metales'.Keys
    ensures LedgerValid(metales', hs, ds, nextId)
  {
    forall i | 0 <= i < |ds| ensures DetalleValid(metales', hs, ds[i]) {
      assert DetalleValid(metales, hs, ds[i]);
    }
  }
}
