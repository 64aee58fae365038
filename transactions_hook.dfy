/**
 * `useTransactions` (src/hooks/useTransactions.ts): the signed-in user's
 * transactions, newest first, with add and delete.
 */
module TransactionsHook {
  import opened Wrappers
  import opened Calendar
  import opened Text
  import opened Entities
  import opened Ledger
  import opened Store

  /** The row-to-record mapping of `fetchTransactions`. */
  function ToTransaction(r: TxRow): Transaction {
    Transaction(ShowNat(r.id), r.tipo, r.monto, r.categoria, r.descripcion, r.fecha)
  }

  /** The row `addTransaction` inserts; the store replaces `id`. */
  function NewRow(draft: TxDraft): TxRow {
    TxRow(0, STATIC_OWNER, draft.kind, draft.amount, draft.category, draft.description, draft.date, None)
  }

  /** What a successful fetch leaves in state: the owner's rows, newest first. */
  function LoadTransactions(rows: seq<TxRow>, owner: string): seq<Transaction> {
    Map(SortByFechaDesc(Where(rows, TxOwnedBy(owner))), ToTransaction)
  }

  function TxIdNot(id: string): Transaction -> bool {
    (t: Transaction) => t.id != id
  }

  /** `prev.filter((t) => t.id !== id)`. */
  function RemoveId(txs: seq<Transaction>, id: string): (r: seq<Transaction>)
    ensures forall t :: t in r <==> t in txs && t.id != id
  {
    Where(txs, TxIdNot(id))
  }

  /** The loaded list is newest first and holds exactly the owner's rows. */
  lemma LoadTransactionsCorrect(rows: seq<TxRow>, owner: string)
    ensures var l := LoadTransactions(rows, owner);
      && (forall i, j :: 0 <= i < j < |l| ==> AtOrBefore(l[j].date, l[i].date))
      && (forall r :: r in rows && r.owner == owner ==> ToTransaction(r) in l)
      && (forall t :: t in l ==> exists r :: r in rows && r.owner == owner && t == ToTransaction(r))
  {
    var mine := Where(rows, TxOwnedBy(owner));
    var sorted := SortByFechaDesc(mine);
    SortByFechaDescSorted(mine);
    forall r | r in rows && r.owner == owner ensures ToTransaction(r) in LoadTransactions(rows, owner) {
      assert r in mine;
      assert r in multiset(sorted);
      var k :| 0 <= k < |sorted| && sorted[k] == r;
      assert LoadTransactions(rows, owner)[k] == ToTransaction(r);
    }
    forall t | t in LoadTransactions(rows, owner)
      ensures exists r :: r in rows && r.owner == owner && t == ToTransaction(r)
    {
      var k :| 0 <= k < |sorted| && LoadTransactions(rows, owner)[k] == t;
      assert sorted[k] in multiset(mine);
      assert sorted[k] in mine;
    }
  }

  /**
   * Removing a transaction from local state gives what a reload after the
   * store delete would give: the two views stay in step.
   */
  lemma DeleteMatchesReload(rows: seq<TxRow>, owner: string, id: string)
    ensures LoadTransactions(Where(rows, TxIdIsNot(id)), owner) == RemoveId(LoadTransactions(rows, owner), id)
  {
    WhereCommutes(rows, TxIdIsNot(id), TxOwnedBy(owner));
    var mine := Where(rows, TxOwnedBy(owner));
    SortWhere(mine, TxIdIsNot(id));
    WhereMap(SortByFechaDesc(mine), ToTransaction, TxIdIsNot(id), TxIdNot(id));
  }

  /**
   * A transaction added through the hook reaches the reloaded list exactly
   * when the hook's user is the fixed owner the insert writes.
   */
  lemma AddedVisibleOnlyToStaticOwner(rows: seq<TxRow>, owner: string, draft: TxDraft, id: nat)
    requires forall r :: r in rows ==> r.id < id
    ensures ToTransaction(NewRow(draft).(id := id)) in LoadTransactions(rows + [NewRow(draft).(id := id)], owner)
        <==> owner == STATIC_OWNER
  {
    var row := NewRow(draft).(id := id);
    var all := rows + [row];
    LoadTransactionsCorrect(all, owner);
    if ToTransaction(row) in LoadTransactions(all, owner) {
      var r :| r in all && r.owner == owner && ToTransaction(row) == ToTransaction(r);
      ShowNatInjective(r.id, id);
      assert r == row;
    }
  }

  class TransactionsState {
    const db: Database
    const usuarioId: string
    var transactions: seq<Transaction>
    var loading: bool

    /** A fresh hook: empty and loading, before the mount effect fetches. */
    constructor (db: Database, usuarioId: string)
      ensures this.db == db && this.usuarioId == usuarioId
      ensures transactions == [] && loading
    {
      this.db := db;
      this.usuarioId := usuarioId;
      transactions := [];
      loading := true;
    }

    /** `fetchTransactions`: on success the state is the owner's rows, newest first; on error it is kept. */
    method FetchTransactions(ok: bool)
      modifies this`transactions, this`loading
      ensures !loading
      ensures transactions == if ok then LoadTransactions(db.transacciones, usuarioId) else old(transactions)
    {
      loading := true;
      if ok {
        transactions := LoadTransactions(db.transacciones, usuarioId);
      }
      loading := false;
    }

    /**
     * `addTransaction`: insert with the fixed owner; on error return nothing
     * and change nothing, otherwise reload and return the inserted row.
     */
    method AddTransaction(draft: TxDraft, insertOk: bool, fetchOk: bool) returns (data: Option<TxRow>)
      modifies this`transactions, this`loading, db`transacciones, db`nextId
      ensures insertOk ==> data == Some(NewRow(draft).(id := old(db.nextId)))
      ensures insertOk ==> db.transacciones == old(db.transacciones) + [NewRow(draft).(id := old(db.nextId))]
      ensures insertOk ==> db.nextId == old(db.nextId) + 1
      ensures insertOk ==> !loading && transactions == (if fetchOk then LoadTransactions(db.transacciones, usuarioId) else old(transactions))
      ensures !insertOk ==> data == None && db.transacciones == old(db.transacciones) && db.nextId == old(db.nextId)
      ensures !insertOk ==> transactions == old(transactions) && loading == old(loading)
    {
      data := db.InsertTransaction(NewRow(draft), insertOk);
      if data.None? {
        return;
      }
      FetchTransactions(fetchOk);
    }

    /**
     * `deleteTransaction`: returns whether the store delete succeeded; on
     * success the local list drops that id, which keeps it equal to a reload.
     */
    method DeleteTransaction(id: string, ok: bool) returns (deleted: bool)
      modifies this`transactions, db`transacciones
      ensures deleted == ok
      ensures db.transacciones == if ok then Where(old(db.transacciones), TxIdIsNot(id)) else old(db.transacciones)
      ensures transactions == if ok then RemoveId(old(transactions), id) else old(transactions)
      ensures old(transactions) == LoadTransactions(old(db.transacciones), usuarioId)
        ==> transactions == LoadTransactions(db.transacciones, usuarioId)
    {
      DeleteMatchesReload(db.transacciones, usuarioId, id);
      db.DeleteTransactions(id, ok);
      if !ok {
        return false;
      }
      transactions := RemoveId(transactions, id);
      return true;
    }
  }
}
