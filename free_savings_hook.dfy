/**
 * `useFreeSavings` (src/hooks/useFreeSavings.ts): free savings kept in
 * `ahorro_libre` rows, meant to be one running balance per user.
 */
module FreeSavingsHook {
  import opened Wrappers
  import opened Text
  import opened Ledger
  import opened Store

  /** `FreeSavingEntry`. */
  datatype FreeSavingEntry = FreeSavingEntry(id: string, amount: real)

  function ToEntry(r: FreeRow): FreeSavingEntry {
    FreeSavingEntry(ShowNat(r.id), r.montoTotal)
  }

  /** Sum of `monto_total` over rows. */
  function RowsTotal(rows: seq<FreeRow>): real {
    if rows == [] then 0.0 else RowsTotal(rows[..|rows| - 1]) + rows[|rows| - 1].montoTotal
  }

  /** `mapped.reduce((acc, entry) => acc + entry.amount, 0)`. */
  function EntriesTotal(entries: seq<FreeSavingEntry>): real {
    if entries == [] then 0.0 else EntriesTotal(entries[..|entries| - 1]) + entries[|entries| - 1].amount
  }

  /** The stored balance of one owner: the sum over all their rows. */
  function OwnerTotal(rows: seq<FreeRow>, owner: string): real {
    RowsTotal(FreeRowsOf(rows, owner))
  }

  /** `.order("id", { ascending: false })` over rows whose ids grow with insertion. */
  function NewestFirst(rows: seq<FreeRow>, owner: string): seq<FreeRow> {
    Reverse(FreeRowsOf(rows, owner))
  }

  /** What a successful fetch lists: the owner's rows, largest id first. */
  function LoadEntries(rows: seq<FreeRow>, owner: string): seq<FreeSavingEntry> {
    Map(NewestFirst(rows, owner), ToEntry)
  }

  lemma {:induction false} RowsTotalAppend(a: seq<FreeRow>, b: seq<FreeRow>)
    ensures RowsTotal(a + b) == RowsTotal(a) + RowsTotal(b)
  {
    if b == [] {
      assert a + b == a;
    } else {
      assert (a + b)[..|a + b| - 1] == a + b[..|b| - 1];
      RowsTotalAppend(a, b[..|b| - 1]);
    }
  }

  lemma {:induction false} EntriesTotalOfReverse(rows: seq<FreeRow>)
    ensures EntriesTotal(Map(Reverse(rows), ToEntry)) == RowsTotal(rows)
  {
    if rows != [] {
      var init, last := rows[..|rows| - 1], rows[|rows| - 1];
      EntriesTotalOfReverse(init);
      var e := Map(Reverse(rows), ToEntry);
      var e' := Map(Reverse(init), ToEntry);
      EntriesTotalCons(ToEntry(last), e');
      assert e == [ToEntry(last)] + e' by {
        assert forall k :: 0 <= k < |e| ==> e[k] == ([ToEntry(last)] + e')[k];
      }
    }
  }

  lemma {:induction false} EntriesTotalCons(x: FreeSavingEntry, e: seq<FreeSavingEntry>)
    ensures EntriesTotal([x] + e) == x.amount + EntriesTotal(e)
  {
    if e == [] {
      assert ([x] + e)[..0] == [];
    } else {
      assert ([x] + e)[..|[x] + e| - 1] == [x] + e[..|e| - 1];
      EntriesTotalCons(x, e[..|e| - 1]);
    }
  }

  /** The listed entries run from the largest id down, and the shown total is the stored balance. */
  lemma LoadEntriesCorrect(rows: seq<FreeRow>, owner: string)
    requires FreeIdsIncreasing(rows)
    ensures var d := NewestFirst(rows, owner);
      && (forall i, j :: 0 <= i < j < |d| ==> d[i].id > d[j].id)
      && |d| == |FreeRowsOf(rows, owner)|
      && EntriesTotal(LoadEntries(rows, owner)) == OwnerTotal(rows, owner)
  {
    var mine := FreeRowsOf(rows, owner);
    var d := NewestFirst(rows, owner);
    FreeWhereIncreasing(rows, owner);
    EntriesTotalOfReverse(mine);
  }

  lemma {:induction false} FreeWhereIncreasing(rows: seq<FreeRow>, owner: string)
    requires FreeIdsIncreasing(rows)
    ensures FreeIdsIncreasing(FreeRowsOf(rows, owner))
  {
    if rows != [] {
      var init := rows[..|rows| - 1];
      assert FreeIdsIncreasing(init);
      FreeWhereIncreasing(init, owner);
      var w := FreeRowsOf(init, owner);
      forall i | 0 <= i < |w| ensures w[i].id < rows[|rows| - 1].id {
        assert w[i] in init;
      }
    }
  }

  /** Rewriting the owner's single row to `v` makes the balance `v`. */
  lemma OwnerTotalAfterSet(rows: seq<FreeRow>, owner: string, v: real)
    requires |FreeRowsOf(rows, owner)| == 1
    ensures OwnerTotal(SetFreeTotal(rows, owner, v), owner) == v
  {
    WhereMap(rows, FreeTotalSetter(owner, v), FreeOwnedBy(owner), FreeOwnedBy(owner));
    var w := FreeRowsOf(rows, owner);
    var m := Map(w, FreeTotalSetter(owner, v));
    assert m == FreeRowsOf(SetFreeTotal(rows, owner, v), owner);
    assert w[0] in w;
    assert m[0] == FreeTotalSetter(owner, v)(w[0]);
    assert RowsTotal(m) == RowsTotal(m[..0]) + m[0].montoTotal;
  }

  /** An inserted row adds its amount to its owner's balance. */
  lemma OwnerTotalAfterInsert(rows: seq<FreeRow>, owner: string, id: nat, v: real)
    ensures OwnerTotal(rows + [FreeRow(id, owner, v)], owner) == OwnerTotal(rows, owner) + v
  {
    assert (rows + [FreeRow(id, owner, v)])[..|rows|] == rows;
  }

  /**
   * The outcome of a deposit on the stored rows: add to the single row,
   * or insert a new row when the select did not find exactly one.
   */
  function Deposited(rows: seq<FreeRow>, owner: string, id: nat, amount: real): seq<FreeRow> {
    var mine := FreeRowsOf(rows, owner);
    if |mine| == 1 then SetFreeTotal(rows, owner, mine[0].montoTotal + amount)
    else rows + [FreeRow(id, owner, amount)]
  }

  /** Whatever the owner's rows, a deposit raises the stored balance by exactly the amount. */
  lemma DepositAddsAmount(rows: seq<FreeRow>, owner: string, id: nat, amount: real)
    ensures OwnerTotal(Deposited(rows, owner, id, amount), owner) == OwnerTotal(rows, owner) + amount
  {
    var mine := FreeRowsOf(rows, owner);
    if |mine| == 1 {
      OwnerTotalAfterSet(rows, owner, mine[0].montoTotal + amount);
      SingleRowTotal(rows, owner);
    } else {
      OwnerTotalAfterInsert(rows, owner, id, amount);
    }
  }

  /**
   * The guards of `withdrawFreeSaving`: a positive amount, a select that
   * answers with exactly one row, and a balance that covers the amount.
   */
  predicate WithdrawProceeds(rows: seq<FreeRow>, owner: string, amount: real, selectOk: bool) {
    amount > 0.0 && selectOk && |FreeRowsOf(rows, owner)| == 1 && OwnerTotal(rows, owner) - amount >= 0.0
  }

  /** With a single row, the balance is that row's amount. */
  lemma SingleRowTotal(rows: seq<FreeRow>, owner: string)
    requires |FreeRowsOf(rows, owner)| == 1
    ensures OwnerTotal(rows, owner) == FreeRowsOf(rows, owner)[0].montoTotal
  {
    var m := FreeRowsOf(rows, owner);
    assert m[..|m| - 1] == [];
    assert RowsTotal(m) == RowsTotal(m[..|m| - 1]) + m[0].montoTotal;
  }

  /** The owner's rows never hold a negative amount. */
  predicate NonNegative(rows: seq<FreeRow>, owner: string) {
    forall r :: r in FreeRowsOf(rows, owner) ==> r.montoTotal >= 0.0
  }

  /** A withdrawal the guards let through leaves no negative row. */
  lemma WithdrawKeepsNonNegative(rows: seq<FreeRow>, owner: string, v: real)
    requires v >= 0.0
    ensures NonNegative(SetFreeTotal(rows, owner, v), owner)
  {
    var mine := FreeRowsOf(rows, owner);
    WhereMap(rows, FreeTotalSetter(owner, v), FreeOwnedBy(owner), FreeOwnedBy(owner));
    var after := Map(mine, FreeTotalSetter(owner, v));
    assert FreeRowsOf(SetFreeTotal(rows, owner, v), owner) == after;
    forall r | r in after ensures r.montoTotal == v {
      var k :| 0 <= k < |after| && after[k] == r;
      assert mine[k] in mine;
    }
  }

  /**
   * The `ahorro_libre` rows after `withdrawFreeSaving(amount)`: when the
   * withdrawal goes ahead and the update succeeds, the owner's row holds
   * the difference; otherwise nothing changes.
   */
  function AfterWithdraw(rows: seq<FreeRow>, owner: string, amount: real, selectOk: bool, writeOk: bool): seq<FreeRow> {
    if WithdrawProceeds(rows, owner, amount, selectOk) && writeOk then SetFreeTotal(rows, owner, OwnerTotal(rows, owner) - amount)
    else rows
  }

  class FreeSavingsState {
    const db: Database
    const usuarioId: string
    var entries: seq<FreeSavingEntry>
    var total: real
    var loading: bool

    constructor (db: Database, usuarioId: string)
      ensures this.db == db && this.usuarioId == usuarioId
      ensures entries == [] && total == 0.0 && loading
    {
      this.db := db;
      this.usuarioId := usuarioId;
      entries := [];
      total := 0.0;
      loading := true;
    }

    /** `fetchEntries`: on success list the rows newest first and show their sum. */
    method FetchEntries(ok: bool)
      modifies this`entries, this`total, this`loading
      ensures !loading
      ensures ok ==> entries == LoadEntries(db.ahorroLibre, usuarioId) && total == EntriesTotal(entries)
      ensures !ok ==> entries == old(entries) && total == old(total)
    {
      loading := true;
      if ok {
        entries := LoadEntries(db.ahorroLibre, usuarioId);
        total := EntriesTotal(entries);
      }
      loading := false;
    }

    /**
     * `addFreeSaving`: a non-positive amount or a failing select changes
     * nothing; otherwise the single row grows by `amount`, or a new row
     * holding `amount` is inserted; then a reload.
     */
    method AddFreeSaving(amount: real, selectOk: bool, writeOk: bool, fetchOk: bool)
      requires db.Valid()
      modifies this`entries, this`total, this`loading, db`ahorroLibre, db`nextId
      ensures db.Valid()
      ensures amount <= 0.0 || !selectOk ==> db.ahorroLibre == old(db.ahorroLibre) && entries == old(entries) && total == old(total)
      ensures amount > 0.0 && selectOk ==>
        db.ahorroLibre == if writeOk then Deposited(old(db.ahorroLibre), usuarioId, old(db.nextId), amount) else old(db.ahorroLibre)
      ensures amount > 0.0 && selectOk && fetchOk ==> entries == LoadEntries(db.ahorroLibre, usuarioId) && total == OwnerTotal(db.ahorroLibre, usuarioId)
      ensures amount > 0.0 && selectOk && writeOk && fetchOk ==> total == OwnerTotal(old(db.ahorroLibre), usuarioId) + amount
      ensures amount > 0.0 && selectOk && !fetchOk ==> entries == old(entries) && total == old(total)
    {
      if amount <= 0.0 {
        return;
      }
      var existing := db.SelectFreeSingle(usuarioId, selectOk);
      if existing.Failed? {
        return;
      }
      DepositAddsAmount(db.ahorroLibre, usuarioId, db.nextId, amount);
      Deposit(existing, amount, writeOk);
      FetchEntries(fetchOk);
      LoadEntriesCorrect(db.ahorroLibre, usuarioId);
    }

    /** The write of `addFreeSaving`: the single row grows by `amount`, or else a new row holds it. */
    method Deposit(existing: SingleResult, amount: real, writeOk: bool)
      requires db.Valid() && existing == db.SelectFreeSingle(usuarioId, true)
      modifies db`ahorroLibre, db`nextId
      ensures db.Valid()
      ensures db.ahorroLibre == if writeOk then Deposited(old(db.ahorroLibre), usuarioId, old(db.nextId), amount) else old(db.ahorroLibre)
    {
      if existing.Found? {
        SingleRowTotal(db.ahorroLibre, usuarioId);
        db.UpdateFree(usuarioId, existing.montoTotal + amount, writeOk);
      } else {
        db.InsertFree(usuarioId, amount, writeOk);
      }
    }

    /**
     * `withdrawFreeSaving`: goes through only for a positive amount, a
     * select that finds exactly one row, and a balance that covers the
     * amount; then that row holds the difference, and a reload follows a
     * successful update.
     */
    method WithdrawFreeSaving(amount: real, selectOk: bool, writeOk: bool, fetchOk: bool)
      requires db.Valid()
      modifies this`entries, this`total, this`loading, db`ahorroLibre
      ensures db.Valid()
      ensures !WithdrawProceeds(old(db.ahorroLibre), usuarioId, amount, selectOk) ==>
        db.ahorroLibre == old(db.ahorroLibre) && entries == old(entries) && total == old(total)
      ensures db.ahorroLibre == AfterWithdraw(old(db.ahorroLibre), usuarioId, amount, selectOk, writeOk)
      ensures var reloaded := WithdrawProceeds(old(db.ahorroLibre), usuarioId, amount, selectOk) && writeOk && fetchOk;
        && entries == (if reloaded then LoadEntries(db.ahorroLibre, usuarioId) else old(entries))
        && total == (if reloaded then OwnerTotal(db.ahorroLibre, usuarioId) else old(total))
      ensures WithdrawProceeds(old(db.ahorroLibre), usuarioId, amount, selectOk) && !writeOk ==>
        db.ahorroLibre == old(db.ahorroLibre) && entries == old(entries) && total == old(total)
      ensures WithdrawProceeds(old(db.ahorroLibre), usuarioId, amount, selectOk) && writeOk ==>
        && db.ahorroLibre == SetFreeTotal(old(db.ahorroLibre), usuarioId, OwnerTotal(old(db.ahorroLibre), usuarioId) - amount)
        && OwnerTotal(db.ahorroLibre, usuarioId) == OwnerTotal(old(db.ahorroLibre), usuarioId) - amount
        && NonNegative(db.ahorroLibre, usuarioId)
        && (fetchOk ==> entries == LoadEntries(db.ahorroLibre, usuarioId) && total == OwnerTotal(db.ahorroLibre, usuarioId))
        && (!fetchOk ==> entries == old(entries) && total == old(total))
    {
      ghost var rows := db.ahorroLibre;
      if amount <= 0.0 {
        return;
      }
      var existing := db.SelectFreeSingle(usuarioId, selectOk);
      if !existing.Found? {
        assert !WithdrawProceeds(rows, usuarioId, amount, selectOk);
        return;
      }
      SingleRowTotal(rows, usuarioId);
      var nuevoMonto := existing.montoTotal - amount;
      assert nuevoMonto == OwnerTotal(rows, usuarioId) - amount;
      if nuevoMonto < 0.0 {
        return;
      }
      assert WithdrawProceeds(rows, usuarioId, amount, selectOk);
      OwnerTotalAfterSet(rows, usuarioId, nuevoMonto);
      WithdrawKeepsNonNegative(rows, usuarioId, nuevoMonto);
      db.UpdateFree(usuarioId, nuevoMonto, writeOk);
      if writeOk {
        FetchEntries(fetchOk);
        LoadEntriesCorrect(db.ahorroLibre, usuarioId);
      }
    }
  }
}
