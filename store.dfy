/**
 * The hosted row store, reduced to what the hooks use: four tables of
 * rows, an id counter, and select/insert/update/delete calls.  Every call
 * that can fail takes an `ok` flag standing for the backend's answer; a
 * failed call changes nothing.
 */
module Store {
  import opened Wrappers
  import opened Calendar
  import opened Text
  import opened Entities
  import opened Ledger

  /** The owner every `transacciones` insert writes: the literal `1`, whatever the signed-in user is. */
  const STATIC_OWNER: string := "1"

  /** A row of `transacciones`; `cuentaId` is `cuenta_pendiente_id`, set only by bill payments. */
  datatype TxRow = TxRow(
    id: nat, owner: string, tipo: string, monto: real,
    categoria: string, descripcion: string, fecha: Date, cuentaId: Option<string>)

  /** A row of `metas`. */
  datatype GoalRow = GoalRow(
    id: nat, owner: string, nombre: string, montoObjetivo: real, montoAcumulado: real,
    fechaLimite: Stamp, completada: bool, categoria: string, descripcion: Option<string>)

  /** A row of `cuentas_pendientes`; `cuotasPagadas` may be null. */
  datatype BillRow = BillRow(
    id: nat, owner: string, nombre: string, montoTotal: real, cuotas: int,
    cuotasPagadas: Option<int>, montoCuota: real, fechaVencimiento: string, pagado: bool, categoria: string)

  /** A row of `ahorro_libre`. */
  datatype FreeRow = FreeRow(id: nat, owner: string, montoTotal: real)

  /** The answer of `.select('monto_total').eq('usuario_id', owner).single()`. */
  datatype SingleResult =
    | Found(montoTotal: real)  // exactly one row
    | NotExactlyOne            // error code PGRST116: no row, or several
    | Failed                   // any other error

  /** `s.map(f)`. */
  function Map<A, B>(s: seq<A>, f: A -> B): (r: seq<B>)
    ensures |r| == |s| && forall i :: 0 <= i < |s| ==> r[i] == f(s[i])
  {
    seq(|s|, i requires 0 <= i < |s| => f(s[i]))
  }

  /**
   * A filtered and mapped table holds no more entries than the table, the
   * image of every row passing the filter, and nothing else.
   */
  lemma LoadedFrom<R(!new), E>(rows: seq<R>, p: R -> bool, f: R -> E)
    ensures |Map(Where(rows, p), f)| <= |rows|
    ensures forall r :: r in rows && p(r) ==> f(r) in Map(Where(rows, p), f)
    ensures forall e :: e in Map(Where(rows, p), f) ==> exists r :: r in rows && p(r) && e == f(r)
  {
    var mine := Where(rows, p);
    var l := Map(mine, f);
    forall r | r in rows && p(r) ensures f(r) in l {
      var k :| 0 <= k < |mine| && mine[k] == r;
      assert l[k] == f(r);
    }
    forall e | e in l ensures exists r :: r in rows && p(r) && e == f(r) {
      var k :| 0 <= k < |l| && l[k] == e;
      assert mine[k] in mine;
    }
  }

  /** Mapping a list with one more element maps that element at the end. */
  lemma MapSnoc<A, B>(s: seq<A>, x: A, f: A -> B)
    ensures Map(s + [x], f) == Map(s, f) + [f(x)]
  {
    assert Map(s + [x], f)[..|s|] == Map(s, f);
  }

  /** Two maps commute when each element's images do: `h(f(x)) == g(h(x))`. */
  lemma MapFusion<A, B>(s: seq<A>, f: A -> A, h: A -> B, g: B -> B)
    requires forall i :: 0 <= i < |s| ==> h(f(s[i])) == g(h(s[i]))
    ensures Map(Map(s, f), h) == Map(Map(s, h), g)
  {
    var a, b := Map(Map(s, f), h), Map(Map(s, h), g);
    forall i | 0 <= i < |s|
      ensures a[i] == b[i]
    {
      assert Map(s, f)[i] == f(s[i]);
      assert Map(s, h)[i] == h(s[i]);
    }
  }

  /** Filtering after a map is mapping after the corresponding filter. */
  lemma {:induction false} WhereMap<A(!new), B(!new)>(s: seq<A>, f: A -> B, p: A -> bool, q: B -> bool)
    requires forall x :: p(x) == q(f(x))
    ensures Where(Map(s, f), q) == Map(Where(s, p), f)
  {
    if s != [] {
      var init := s[..|s| - 1];
      assert Map(s, f)[..|s| - 1] == Map(init, f);
      WhereMap(init, f, p, q);
      if p(s[|s| - 1]) {
        assert Map(Where(init, p) + [s[|s| - 1]], f) == Map(Where(init, p), f) + [f(s[|s| - 1])];
      } else {
        assert Where(init, p) + [] == Where(init, p);
      }
    }
  }

  // ---- ordering of `transacciones` by `fecha` descending ----

  predicate SortedByFechaDesc(s: seq<TxRow>) {
    forall i, j :: 0 <= i < j < |s| ==> AtOrBefore(s[j].fecha, s[i].fecha)
  }

  /** Puts `x` before the first row that is not later than it. */
  function InsertByFecha(x: TxRow, s: seq<TxRow>): (r: seq<TxRow>)
    ensures multiset(r) == multiset(s) + multiset{x}
  {
    if s == [] then [x]
    else if AtOrBefore(s[0].fecha, x.fecha) then [x] + s
    else
      assert s == [s[0]] + s[1..];
      [s[0]] + InsertByFecha(x, s[1..])
  }

  /** `.order("fecha", { ascending: false })`; rows with equal dates keep their table order. */
  function SortByFechaDesc(s: seq<TxRow>): (r: seq<TxRow>)
    ensures multiset(r) == multiset(s)
  {
    if s == [] then []
    else
      assert s == [s[0]] + s[1..];
      InsertByFecha(s[0], SortByFechaDesc(s[1..]))
  }

  lemma {:induction false} InsertByFechaSorted(x: TxRow, s: seq<TxRow>)
    requires SortedByFechaDesc(s)
    ensures SortedByFechaDesc(InsertByFecha(x, s))
  {
    if s != [] && !AtOrBefore(s[0].fecha, x.fecha) {
      SortedTail(s);
      InsertByFechaSorted(x, s[1..]);
      var r := InsertByFecha(x, s[1..]);
      forall k | 0 <= k < |r| ensures AtOrBefore(r[k].fecha, s[0].fecha) {
        assert r[k] in multiset(s[1..]) + multiset{x};
        if r[k] in s[1..] {
          var j :| 0 <= j < |s[1..]| && s[1..][j] == r[k];
          assert s[j + 1] == r[k];
        }
      }
      ConsSorted(s[0], r);
    } else if s != [] {
      forall j | 0 <= j < |s| ensures AtOrBefore(s[j].fecha, x.fecha) {
        NoLaterRow(x, s, s[j]);
      }
      ConsSorted(x, s);
    }
  }

  /** A row not earlier than every row of a newest-first list can go in front of it. */
  lemma ConsSorted(y: TxRow, r: seq<TxRow>)
    requires SortedByFechaDesc(r)
    requires forall k :: 0 <= k < |r| ==> AtOrBefore(r[k].fecha, y.fecha)
    ensures SortedByFechaDesc([y] + r)
  {
    var a := [y] + r;
    forall i, j | 0 <= i < j < |a| ensures AtOrBefore(a[j].fecha, a[i].fecha) {
      assert a[j] == r[j - 1];
      if i > 0 {
        assert a[i] == r[i - 1];
      }
    }
  }

  /** The fetched order really is newest first, and nothing is lost or added. */
  lemma {:induction false} SortByFechaDescSorted(s: seq<TxRow>)
    ensures SortedByFechaDesc(SortByFechaDesc(s))
    ensures multiset(SortByFechaDesc(s)) == multiset(s)
  {
    if s != [] {
      SortByFechaDescSorted(s[1..]);
      InsertByFechaSorted(s[0], SortByFechaDesc(s[1..]));
    }
  }

  lemma WhereSingle<T(!new)>(x: T, p: T -> bool)
    ensures Where([x], p) == if p(x) then [x] else []
  {
    assert [x][..0] == [];
  }

  lemma WhereCons<T(!new)>(x: T, s: seq<T>, p: T -> bool)
    ensures Where([x] + s, p) == (if p(x) then [x] else []) + Where(s, p)
  {
    WhereAppend([x], s, p);
    WhereSingle(x, p);
  }

  lemma InsertBeforeLater(x: TxRow, y: TxRow, w: seq<TxRow>)
    requires !AtOrBefore(y.fecha, x.fecha)
    ensures InsertByFecha(x, [y] + w) == [y] + InsertByFecha(x, w)
  {
    var s := [y] + w;
    assert s[0] == y && s[1..] == w;
  }

  /** When `x` is not earlier than the head of `s`, filtering sees it first. */
  lemma WhereInsertFront(x: TxRow, s: seq<TxRow>, p: TxRow -> bool)
    requires SortedByFechaDesc(s) && s != [] && AtOrBefore(s[0].fecha, x.fecha)
    ensures Where(InsertByFecha(x, s), p) == if p(x) then InsertByFecha(x, Where(s, p)) else Where(s, p)
  {
    assert InsertByFecha(x, s) == [x] + s;
    WhereCons(x, s, p);
    var w := Where(s, p);
    if p(x) {
      if w != [] {
        NoLaterRow(x, s, w[0]);
        assert InsertByFecha(x, w) == [x] + w;
      }
    } else {
      assert [] + w == w;
    }
  }

  /** No row of a newest-first list is later than a row not earlier than its head. */
  lemma NoLaterRow(x: TxRow, s: seq<TxRow>, y: TxRow)
    requires SortedByFechaDesc(s) && s != [] && AtOrBefore(s[0].fecha, x.fecha)
    requires y in s
    ensures AtOrBefore(y.fecha, x.fecha)
  {
    var j :| 0 <= j < |s| && s[j] == y;
    if j > 0 {
      AtOrBeforeTotalPreorder(s[j].fecha, s[0].fecha, x.fecha);
    }
  }

  lemma {:induction false} WhereInsert(x: TxRow, s: seq<TxRow>, p: TxRow -> bool)
    requires SortedByFechaDesc(s)
    ensures Where(InsertByFecha(x, s), p) == if p(x) then InsertByFecha(x, Where(s, p)) else Where(s, p)
  {
    if s == [] {
      WhereSingle(x, p);
    } else if AtOrBefore(s[0].fecha, x.fecha) {
      WhereInsertFront(x, s, p);
    } else {
      var y, t := s[0], s[1..];
      assert s == [y] + t;
      SortedTail(s);
      WhereInsert(x, t, p);
      WhereInsertBehind(x, y, t, p);
    }
  }

  /** Inserting behind a later head: filtering commutes with the insertion into the tail. */
  lemma WhereInsertBehind(x: TxRow, y: TxRow, t: seq<TxRow>, p: TxRow -> bool)
    requires !AtOrBefore(y.fecha, x.fecha)
    requires Where(InsertByFecha(x, t), p) == if p(x) then InsertByFecha(x, Where(t, p)) else Where(t, p)
    ensures Where(InsertByFecha(x, [y] + t), p) == if p(x) then InsertByFecha(x, Where([y] + t, p)) else Where([y] + t, p)
  {
    InsertBeforeLater(x, y, t);
    WhereCons(y, InsertByFecha(x, t), p);
    WhereCons(y, t, p);
    if p(y) {
      if p(x) {
        InsertBeforeLater(x, y, Where(t, p));
      }
    } else {
      EmptyAppend(Where(t, p));
      EmptyAppend(Where(InsertByFecha(x, t), p));
    }
  }

  lemma EmptyAppend<T>(w: seq<T>)
    ensures [] + w == w
  {
  }

  lemma SortedTail(s: seq<TxRow>)
    requires SortedByFechaDesc(s) && s != []
    ensures SortedByFechaDesc(s[1..])
  {
    forall i, j | 0 <= i < j < |s| - 1 ensures AtOrBefore(s[1..][j].fecha, s[1..][i].fecha) {
      assert s[1..][j] == s[j + 1] && s[1..][i] == s[i + 1];
    }
  }

  lemma SortCons(x: TxRow, rest: seq<TxRow>)
    ensures SortByFechaDesc([x] + rest) == InsertByFecha(x, SortByFechaDesc(rest))
  {
    var s := [x] + rest;
    assert s[0] == x && s[1..] == rest;
  }

  /** Sorting commutes with filtering, because the sort is stable. */
  lemma {:induction false} SortWhere(s: seq<TxRow>, p: TxRow -> bool)
    ensures SortByFechaDesc(Where(s, p)) == Where(SortByFechaDesc(s), p)
  {
    if s != [] {
      var x, rest := s[0], s[1..];
      assert s == [x] + rest;
      var sortedRest := SortByFechaDesc(rest);
      var w := Where(rest, p);
      SortWhere(rest, p);
      assert SortByFechaDesc(w) == Where(sortedRest, p);
      SortByFechaDescSorted(rest);
      SortCons(x, rest);
      assert SortByFechaDesc(s) == InsertByFecha(x, sortedRest);
      WhereInsert(x, sortedRest, p);
      WhereCons(x, rest, p);
      if p(x) {
        assert Where(s, p) == [x] + w;
        SortCons(x, w);
      } else {
        assert Where(s, p) == [] + w;
        assert [] + w == w;
      }
    }
  }

  // ---- row predicates, as named values so that every use is the same term ----

  function TxOwnedBy(owner: string): TxRow -> bool {
    (r: TxRow) => r.owner == owner
  }

  function TxIdIsNot(id: string): TxRow -> bool {
    (r: TxRow) => ShowNat(r.id) != id
  }

  function GoalOwnedBy(owner: string): GoalRow -> bool {
    (r: GoalRow) => r.owner == owner
  }

  function GoalIdIsNot(id: string): GoalRow -> bool {
    (r: GoalRow) => ShowNat(r.id) != id
  }

  function BillOwnedBy(owner: string): BillRow -> bool {
    (r: BillRow) => r.owner == owner
  }

  function BillIdIsNot(id: string): BillRow -> bool {
    (r: BillRow) => ShowNat(r.id) != id
  }

  function FreeOwnedBy(owner: string): FreeRow -> bool {
    (r: FreeRow) => r.owner == owner
  }

  predicate GoalIdsIncreasing(rows: seq<GoalRow>) {
    forall i, j :: 0 <= i < j < |rows| ==> rows[i].id < rows[j].id
  }

  predicate FreeIdsIncreasing(rows: seq<FreeRow>) {
    forall i, j :: 0 <= i < j < |rows| ==> rows[i].id < rows[j].id
  }

  /** The row rewrite of `update({ monto_acumulado: v }).eq("id", id)`. */
  function AccumulatedSetter(id: string, v: real): GoalRow -> GoalRow {
    (r: GoalRow) => if ShowNat(r.id) == id then r.(montoAcumulado := v) else r
  }

  function SetAccumulated(rows: seq<GoalRow>, id: string, v: real): seq<GoalRow> {
    Map(rows, AccumulatedSetter(id, v))
  }

  /** The row rewrite of `update({ completada: true }).eq("id", id)`. */
  function CompletedSetter(id: string): GoalRow -> GoalRow {
    (r: GoalRow) => if ShowNat(r.id) == id then r.(completada := true) else r
  }

  function SetCompleted(rows: seq<GoalRow>, id: string): seq<GoalRow> {
    Map(rows, CompletedSetter(id))
  }

  /** The row rewrite of `update({ pagado, cuotas_pagadas }).eq("id", id)`. */
  function PaymentSetter(id: string, paid: int, pagado: bool): BillRow -> BillRow {
    (r: BillRow) => if ShowNat(r.id) == id then r.(cuotasPagadas := Some(paid), pagado := pagado) else r
  }

  function SetPayment(rows: seq<BillRow>, id: string, paid: int, pagado: bool): seq<BillRow> {
    Map(rows, PaymentSetter(id, paid, pagado))
  }

  /** The row rewrite of `update({ monto_total: v }).eq('usuario_id', owner)`. */
  function FreeTotalSetter(owner: string, v: real): FreeRow -> FreeRow {
    (r: FreeRow) => if r.owner == owner then r.(montoTotal := v) else r
  }

  function SetFreeTotal(rows: seq<FreeRow>, owner: string, v: real): seq<FreeRow> {
    Map(rows, FreeTotalSetter(owner, v))
  }

  /** The `ahorro_libre` rows of one owner. */
  function FreeRowsOf(rows: seq<FreeRow>, owner: string): seq<FreeRow> {
    Where(rows, FreeOwnedBy(owner))
  }

  class Database {
    var transacciones: seq<TxRow>
    var metas: seq<GoalRow>
    var cuentas: seq<BillRow>
    var ahorroLibre: seq<FreeRow>
    var nextId: nat

    /** Ids are handed out in increasing order, so `metas` and `ahorro_libre` are ordered by id. */
    ghost predicate Valid()
      reads this
    {
      && GoalIdsIncreasing(metas)
      && FreeIdsIncreasing(ahorroLibre)
      && (forall i :: 0 <= i < |metas| ==> metas[i].id < nextId)
      && (forall i :: 0 <= i < |ahorroLibre| ==> ahorroLibre[i].id < nextId)
    }

    constructor ()
      ensures Valid()
      ensures transacciones == [] && metas == [] && cuentas == [] && ahorroLibre == []
    {
      transacciones, metas, cuentas, ahorroLibre, nextId := [], [], [], [], 0;
    }

    /** `.from("transacciones").insert([row])`: the row gets the next id. */
    method InsertTransaction(row: TxRow, ok: bool) returns (inserted: Option<TxRow>)
      modifies this`transacciones, this`nextId
      ensures ok ==> inserted == Some(row.(id := old(nextId)))
      ensures ok ==> transacciones == old(transacciones) + [row.(id := old(nextId))] && nextId == old(nextId) + 1
      ensures !ok ==> inserted == None && transacciones == old(transacciones) && nextId == old(nextId)
    {
      if ok {
        var r := row.(id := nextId);
        transacciones := transacciones + [r];
        nextId := nextId + 1;
        inserted := Some(r);
      } else {
        inserted := None;
      }
    }

    /** `.from("transacciones").delete().eq("id", id)`. */
    method DeleteTransactions(id: string, ok: bool)
      modifies this`transacciones
      ensures transacciones == if ok then Where(old(transacciones), TxIdIsNot(id)) else old(transacciones)
    {
      if ok {
        transacciones := Where(transacciones, TxIdIsNot(id));
      }
    }

    /** `.from("metas").insert([row])`. */
    method InsertGoal(row: GoalRow, ok: bool)
      requires Valid()
      modifies this`metas, this`nextId
      ensures Valid()
      ensures metas == if ok then old(metas) + [row.(id := old(nextId))] else old(metas)
      ensures nextId == if ok then old(nextId) + 1 else old(nextId)
    {
      if ok {
        metas := metas + [row.(id := nextId)];
        nextId := nextId + 1;
      }
    }

    /** `.from("metas").delete().eq("id", id)`. */
    method DeleteGoals(id: string, ok: bool)
      requires Valid()
      modifies this`metas
      ensures Valid()
      ensures metas == if ok then Where(old(metas), GoalIdIsNot(id)) else old(metas)
    {
      if ok {
        var kept := Where(metas, GoalIdIsNot(id));
        forall i, j | 0 <= i < j < |kept| ensures kept[i].id < kept[j].id {
          WhereSubsequence(metas, GoalIdIsNot(id), i, j);
        }
        forall i | 0 <= i < |kept| ensures kept[i].id < nextId {
          assert kept[i] in metas;
        }
        metas := kept;
      }
    }

    /** `.from("metas").update({ monto_acumulado: v }).eq("id", id)`. */
    method UpdateGoalAccumulated(id: string, v: real, ok: bool)
      requires Valid()
      modifies this`metas
      ensures Valid()
      ensures metas == if ok then SetAccumulated(old(metas), id, v) else old(metas)
    {
      if ok {
        metas := SetAccumulated(metas, id, v);
      }
    }

    /** `.from("metas").update({ completada: true }).eq("id", id)`. */
    method UpdateGoalCompleted(id: string, ok: bool)
      requires Valid()
      modifies this`metas
      ensures Valid()
      ensures metas == if ok then SetCompleted(old(metas), id) else old(metas)
    {
      if ok {
        metas := SetCompleted(metas, id);
      }
    }

    /** `.from("cuentas_pendientes").insert([row])`. */
    method InsertBill(row: BillRow, ok: bool)
      modifies this`cuentas, this`nextId
      ensures cuentas == if ok then old(cuentas) + [row.(id := old(nextId))] else old(cuentas)
      ensures nextId == if ok then old(nextId) + 1 else old(nextId)
    {
      if ok {
        cuentas := cuentas + [row.(id := nextId)];
        nextId := nextId + 1;
      }
    }

    /** `.from("cuentas_pendientes").delete().eq("id", id)`. */
    method DeleteBills(id: string, ok: bool)
      modifies this`cuentas
      ensures cuentas == if ok then Where(old(cuentas), BillIdIsNot(id)) else old(cuentas)
    {
      if ok {
        cuentas := Where(cuentas, BillIdIsNot(id));
      }
    }

    /** `.from("cuentas_pendientes").update({ pagado, cuotas_pagadas }).eq("id", id)`. */
    method UpdateBillPayment(id: string, paid: int, pagado: bool, ok: bool)
      modifies this`cuentas
      ensures cuentas == if ok then SetPayment(old(cuentas), id, paid, pagado) else old(cuentas)
    {
      if ok {
        cuentas := SetPayment(cuentas, id, paid, pagado);
      }
    }

    /** `.from('ahorro_libre').select('monto_total').eq('usuario_id', owner).single()`. */
    function SelectFreeSingle(owner: string, ok: bool): (r: SingleResult)
      reads this
      ensures r.Found? <==> ok && |FreeRowsOf(ahorroLibre, owner)| == 1
      ensures r.Found? ==> r.montoTotal == FreeRowsOf(ahorroLibre, owner)[0].montoTotal
      ensures r.Failed? <==> !ok
    {
      if !ok then Failed
      else
        var mine := FreeRowsOf(ahorroLibre, owner);
        if |mine| == 1 then Found(mine[0].montoTotal) else NotExactlyOne
    }

    /** `.from('ahorro_libre').insert([{ usuario_id: owner, monto_total: v }])`. */
    method InsertFree(owner: string, v: real, ok: bool)
      requires Valid()
      modifies this`ahorroLibre, this`nextId
      ensures Valid()
      ensures ahorroLibre == if ok then old(ahorroLibre) + [FreeRow(old(nextId), owner, v)] else old(ahorroLibre)
    {
      if ok {
        ahorroLibre := ahorroLibre + [FreeRow(nextId, owner, v)];
        nextId := nextId + 1;
      }
    }

    /** `.from('ahorro_libre').update({ monto_total: v }).eq('usuario_id', owner)`. */
    method UpdateFree(owner: string, v: real, ok: bool)
      requires Valid()
      modifies this`ahorroLibre
      ensures Valid()
      ensures ahorroLibre == if ok then SetFreeTotal(old(ahorroLibre), owner, v) else old(ahorroLibre)
    {
      if ok {
        ahorroLibre := SetFreeTotal(ahorroLibre, owner, v);
      }
    }
  }

  /** Filtering keeps the relative order of what it keeps. */
  lemma {:induction false} WhereSubsequence(rows: seq<GoalRow>, p: GoalRow -> bool, i: int, j: int)
    requires GoalIdsIncreasing(rows)
    requires 0 <= i < j < |Where(rows, p)|
    ensures Where(rows, p)[i].id < Where(rows, p)[j].id
  {
    var init := rows[..|rows| - 1];
    var w := Where(init, p);
    assert GoalIdsIncreasing(init);
    if j < |w| {
      WhereSubsequence(init, p, i, j);
    } else {
      assert Where(rows, p)[i] == w[i];
      assert w[i] in init;
    }
  }
}
