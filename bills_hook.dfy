/**
 * `useBills` (src/hooks/useBills.ts): bills paid in installments, with
 * add, delete and the one-installment "quick payment" that also records
 * the expense.
 */
module BillsHook {
  import opened Wrappers
  import opened Calendar
  import opened Text
  import opened Entities
  import opened Ledger
  import opened Store

  /** The bill fields a caller supplies (`Omit<Bill, "id" | "paidInstallments" | "installmentAmount">`). */
  datatype BillDraft = BillDraft(name: string, totalAmount: real, installments: int, dueDate: string, category: string)

  /** The category of the expense a quick payment records. */
  const PAYMENT_CATEGORY: string := "Pago de Cuenta"

  /** `row.cuotas_pagadas || 0`: a null count reads as zero. */
  function PaidOrZero(p: Option<int>): int {
    match p
    case None => 0
    case Some(n) => n
  }

  /** The row-to-record mapping of `fetchBills`. */
  function ToBill(r: BillRow): Bill {
    Bill(ShowNat(r.id), r.nombre, r.montoTotal, r.cuotas, PaidOrZero(r.cuotasPagadas), r.montoCuota, r.fechaVencimiento, r.categoria)
  }

  /** What a successful fetch leaves in state: the owner's bills in table order. */
  function LoadBills(rows: seq<BillRow>, owner: string): seq<Bill> {
    Map(Where(rows, BillOwnedBy(owner)), ToBill)
  }

  /** A fetch lists one bill for each of the owner's rows, a null paid count read as 0, and nothing else. */
  lemma LoadBillsCorrect(rows: seq<BillRow>, owner: string)
    ensures |LoadBills(rows, owner)| <= |rows|
    ensures forall r :: r in rows && r.owner == owner ==> ToBill(r) in LoadBills(rows, owner)
    ensures forall b :: b in LoadBills(rows, owner) ==> exists r :: r in rows && r.owner == owner && b == ToBill(r)
  {
    LoadedFrom(rows, BillOwnedBy(owner), ToBill);
  }

  /** The row `addBill` inserts: the installment amount is the total split evenly, nothing paid yet. */
  function NewBillRow(owner: string, draft: BillDraft): (r: BillRow)
    requires draft.installments >= 1
    ensures r.montoCuota * draft.installments as real == draft.totalAmount
    ensures PaidOrZero(r.cuotasPagadas) == 0 && !r.pagado
  {
    BillRow(0, owner, draft.name, draft.totalAmount, draft.installments, None,
      draft.totalAmount / draft.installments as real, draft.dueDate, false, draft.category)
  }

  /** The position `find` stops at: the first bill with that id, or the length when there is none. */
  function IndexOfBill(bills: seq<Bill>, id: string): (k: nat)
    ensures k <= |bills|
    ensures k < |bills| ==> bills[k].id == id
    ensures forall j :: 0 <= j < k ==> bills[j].id != id
  {
    if bills == [] || bills[0].id == id then 0
    else 1 + IndexOfBill(bills[1..], id)
  }

  /** `bills.find((b) => b.id === id)`. */
  function FindBill(bills: seq<Bill>, id: string): (r: Option<Bill>)
    ensures r.Some? ==> r.value in bills && r.value.id == id
    ensures r.None? <==> forall b :: b in bills ==> b.id != id
  {
    var k := IndexOfBill(bills, id);
    if k < |bills| then Some(bills[k]) else None
  }

  /** A quick payment acts only on a bill with installments left. */
  predicate Payable(b: Bill) {
    b.paidInstallments < b.installments
  }

  /** The text of the recorded expense: `PAGO DE CUOTA n/m PARA NAME`. */
  function PaymentDescription(newPaid: int, installments: int, name: string): string {
    "PAGO DE CUOTA " + ShowInt(newPaid) + "/" + ShowInt(installments) + " PARA " + ToUpper(name)
  }

  /** The expense row a quick payment inserts, linked to the bill by `cuenta_pendiente_id`. */
  function PaymentRow(b: Bill, today: Date): TxRow {
    TxRow(0, STATIC_OWNER, GASTO, b.installmentAmount, PAYMENT_CATEGORY,
      PaymentDescription(b.paidInstallments + 1, b.installments, b.name), today, Some(b.id))
  }

  function PaidUpdate(id: string, paid: int): Bill -> Bill {
    (b: Bill) => if b.id == id then b.(paidInstallments := paid) else b
  }

  /** The bill list as it reads once the bill `id` has `paid` installments paid. */
  function WithPaid(bills: seq<Bill>, id: string, paid: int): (r: seq<Bill>)
    ensures |r| == |bills|
    ensures forall k :: 0 <= k < |bills| ==> r[k] == if bills[k].id == id then bills[k].(paidInstallments := paid) else bills[k]
  {
    Map(bills, PaidUpdate(id, paid))
  }

  function BillIdNot(id: string): Bill -> bool {
    (b: Bill) => b.id != id
  }

  /** A reload after the payment update shows the new count on that bill and nothing else changed. */
  lemma LoadAfterSetPayment(rows: seq<BillRow>, owner: string, id: string, paid: int, pagado: bool)
    ensures LoadBills(SetPayment(rows, id, paid, pagado), owner) == WithPaid(LoadBills(rows, owner), id, paid)
  {
    var f := PaymentSetter(id, paid, pagado);
    WhereMap(rows, f, BillOwnedBy(owner), BillOwnedBy(owner));
    var mine := Where(rows, BillOwnedBy(owner));
    forall i | 0 <= i < |mine|
      ensures ToBill(f(mine[i])) == PaidUpdate(id, paid)(ToBill(mine[i]))
    {
      SetterThenLoad(mine[i], id, paid, pagado);
    }
    MapFusion(mine, f, ToBill, PaidUpdate(id, paid));
  }

  /** Rewriting one row's payment and then loading it is loading it and then setting its count. */
  lemma SetterThenLoad(r: BillRow, id: string, paid: int, pagado: bool)
    ensures ToBill(PaymentSetter(id, paid, pagado)(r)) == PaidUpdate(id, paid)(ToBill(r))
  {
  }

  /** Removing a bill locally gives what a reload after the store delete would give. */
  lemma DeleteMatchesReload(rows: seq<BillRow>, owner: string, id: string)
    ensures LoadBills(Where(rows, BillIdIsNot(id)), owner) == Where(LoadBills(rows, owner), BillIdNot(id))
  {
    WhereCommutes(rows, BillIdIsNot(id), BillOwnedBy(owner));
    WhereMap(Where(rows, BillOwnedBy(owner)), ToBill, BillIdIsNot(id), BillIdNot(id));
  }

  /** Paid installments stay within `0..installments`. */
  predicate InRange(b: Bill) {
    0 <= b.paidInstallments <= b.installments
  }

  /**
   * One quick payment advances a payable bill by exactly one installment,
   * keeps it in range, and marks it fully paid exactly when the last
   * installment is the one paid.
   */
  lemma PaymentStep(b: Bill)
    requires InRange(b) && Payable(b)
    ensures var paid := b.paidInstallments + 1;
      && InRange(b.(paidInstallments := paid))
      && (paid == b.installments <==> !Payable(b.(paidInstallments := paid)))
  {
  }

  /** Paying a bill `installments - paid` times from any in-range state pays it off. */
  lemma {:induction false} PaymentsPayOff(b: Bill, k: nat)
    requires InRange(b) && k == b.installments - b.paidInstallments
    ensures PayTimes(b, k).paidInstallments == b.installments && !Payable(PayTimes(b, k))
    decreases k
  {
    if k > 0 {
      PaymentsPayOff(b.(paidInstallments := b.paidInstallments + 1), k - 1);
    }
  }

  /** The bill after `k` quick payments, each applied only while payable. */
  function PayTimes(b: Bill, k: nat): Bill
    decreases k
  {
    if k == 0 || !Payable(b) then b else PayTimes(b.(paidInstallments := b.paidInstallments + 1), k - 1)
  }

  class BillsState {
    const db: Database
    const usuarioId: string
    var bills: seq<Bill>
    var loading: bool

    constructor (db: Database, usuarioId: string)
      ensures this.db == db && this.usuarioId == usuarioId
      ensures bills == [] && loading
    {
      this.db := db;
      this.usuarioId := usuarioId;
      bills := [];
      loading := true;
    }

    /** `fetchBills`: on success the state is the owner's bills; on error it is kept. */
    method FetchBills(ok: bool)
      modifies this`bills, this`loading
      ensures !loading
      ensures bills == if ok then LoadBills(db.cuentas, usuarioId) else old(bills)
    {
      loading := true;
      if ok {
        bills := LoadBills(db.cuentas, usuarioId);
      }
      loading := false;
    }

    /** `addBill`: insert with the evenly split installment and nothing paid, then reload. */
    method AddBill(draft: BillDraft, insertOk: bool, fetchOk: bool)
      requires draft.installments >= 1
      modifies this`bills, this`loading, db`cuentas, db`nextId
      ensures db.cuentas == if insertOk then old(db.cuentas) + [NewBillRow(usuarioId, draft).(id := old(db.nextId))] else old(db.cuentas)
      ensures insertOk ==> !loading && bills == (if fetchOk then LoadBills(db.cuentas, usuarioId) else old(bills))
      ensures !insertOk ==> bills == old(bills) && loading == old(loading)
    {
      db.InsertBill(NewBillRow(usuarioId, draft), insertOk);
      if insertOk {
        FetchBills(fetchOk);
      }
    }

    /** `deleteBill`: on success drop the bill locally, which keeps the list equal to a reload. */
    method DeleteBill(id: string, ok: bool)
      modifies this`bills, db`cuentas
      ensures db.cuentas == if ok then Where(old(db.cuentas), BillIdIsNot(id)) else old(db.cuentas)
      ensures bills == if ok then Where(old(bills), BillIdNot(id)) else old(bills)
      ensures old(bills) == LoadBills(old(db.cuentas), usuarioId) ==> bills == LoadBills(db.cuentas, usuarioId)
    {
      DeleteMatchesReload(db.cuentas, usuarioId, id);
      db.DeleteBills(id, ok);
      if ok {
        bills := Where(bills, BillIdNot(id));
      }
    }

    /**
     * `quickPayment`: for a payable bill of the local list, store one more
     * paid installment (and `pagado` when it is the last one); only when
     * that succeeds, insert the expense row, whose own failure is ignored,
     * then reload.
     */
    method QuickPayment(id: string, today: Date, updateOk: bool, txOk: bool, fetchOk: bool)
      modifies this`bills, this`loading, db`cuentas, db`transacciones, db`nextId
      ensures var found := FindBill(old(bills), id);
        !(found.Some? && Payable(found.value) && updateOk) ==>
          db.cuentas == old(db.cuentas) && db.transacciones == old(db.transacciones) && bills == old(bills)
      ensures var found := FindBill(old(bills), id);
        found.Some? && Payable(found.value) && updateOk ==>
          var b := found.value;
          var paid := b.paidInstallments + 1;
          && db.cuentas == SetPayment(old(db.cuentas), id, paid, paid == b.installments)
          && db.transacciones == (if txOk then old(db.transacciones) + [PaymentRow(b, today).(id := old(db.nextId))] else old(db.transacciones))
          && bills == (if fetchOk then LoadBills(db.cuentas, usuarioId) else old(bills))
          && (fetchOk && old(bills) == LoadBills(old(db.cuentas), usuarioId) ==> bills == WithPaid(old(bills), id, paid))
    {
      var bill := FindBill(bills, id);
      if bill.None? {
        return;
      }
      var b := bill.value;
      if b.paidInstallments >= b.installments {
        return;
      }
      var newPaid := b.paidInstallments + 1;
      var isFullyPaid := newPaid == b.installments;
      LoadAfterSetPayment(db.cuentas, usuarioId, id, newPaid, isFullyPaid);
      db.UpdateBillPayment(id, newPaid, isFullyPaid, updateOk);
      if !updateOk {
        return;
      }
      var inserted := db.InsertTransaction(PaymentRow(b, today), txOk);
      FetchBills(fetchOk);
    }
  }
}
