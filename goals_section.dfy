/**
 * `GoalsSection` (src/components/GoalsSection.tsx): per-goal progress,
 * days left, colours and controls, the contribution handler, and the free
 * savings deposit and withdrawal handlers.
 */
module GoalsSection {
  import opened Wrappers
  import opened Numbers
  import opened Calendar
  import opened Text
  import opened Entities
  import opened Ledger
  import opened Store
  import GH = GoalsHook
  import TH = TransactionsHook
  import FS = FreeSavingsHook
  import Dashboard

  /** `calculateProgress`: a percentage capped at 100, and 0 for a zero target. */
  function Progress(current: real, target: real): (p: real)
    ensures p <= 100.0
    ensures target == 0.0 ==> p == 0.0
    ensures target != 0.0 ==> (p == 100.0 <==> current / target >= 1.0)
    ensures target != 0.0 && p < 100.0 ==> p * target == current * 100.0
  {
    if target == 0.0 then 0.0 else MinReal(current / target * 100.0, 100.0)
  }

  /** For a positive target, progress is full exactly when the saved amount reaches it, and grows with it. */
  lemma ProgressFacts(c1: real, c2: real, target: real)
    requires target > 0.0
    ensures Progress(c1, target) == 100.0 <==> c1 >= target
    ensures c1 <= c2 ==> Progress(c1, target) <= Progress(c2, target)
  {
    if c1 <= c2 {
      assert c1 / target <= c2 / target;
    }
    if c1 / target >= 1.0 {
      assert c1 == c1 / target * target;
    }
  }

  /** `calculateDaysUntilTarget`: NaN for an unparseable date, otherwise whole days rounded up. */
  function DaysUntilTarget(target: Stamp, nowMs: int): (d: Num)
    ensures target.Invalid? <==> d.NaN?
    ensures target.At? ==> d.Finite? && d.value == CeilDiv(target.ms - nowMs, MS_PER_DAY) as real
  {
    match target
    case Invalid => NaN
    case At(ms) => Finite(CeilDiv(ms - nowMs, MS_PER_DAY) as real)
  }

  /** What the date line of a goal says. */
  datatype DueLabel = InvalidDate | DaysLeft(days: real) | Overdue

  /** `isNaN(d) ? 'Fecha inválida' : (d > 0 ? 'N días' : 'Fecha vencida')`. */
  function DueLabelOf(d: Num): DueLabel {
    match d
    case Finite(v) => if v > 0.0 then DaysLeft(v) else Overdue
    case _ => InvalidDate
  }

  /** A goal shows days left exactly when its date is valid and still ahead; a date at or before now is overdue. */
  lemma DueLabelCorrect(target: Stamp, nowMs: int)
    ensures DueLabelOf(DaysUntilTarget(target, nowMs)).InvalidDate? <==> target.Invalid?
    ensures DueLabelOf(DaysUntilTarget(target, nowMs)).DaysLeft? <==> target.At? && target.ms > nowMs
    ensures DueLabelOf(DaysUntilTarget(target, nowMs)).Overdue? <==> target.At? && target.ms <= nowMs
  {
    if target.At? {
      var q := CeilDiv(target.ms - nowMs, MS_PER_DAY);
      assert (q - 1) * MS_PER_DAY < target.ms - nowMs <= q * MS_PER_DAY;
      if target.ms > nowMs {
        assert q > 0;
      } else {
        assert q <= 0;
      }
    }
  }

  /** The colour family of a progress value (`getProgressColor` and `getStatusColor` share the thresholds). */
  datatype Tone = Red | Yellow | Blue | Emerald

  function ToneOf(p: real): Tone {
    if p >= 100.0 then Emerald
    else if p >= 75.0 then Blue
    else if p >= 50.0 then Yellow
    else Red
  }

  function ToneRank(t: Tone): nat {
    match t
    case Red => 0
    case Yellow => 1
    case Blue => 2
    case Emerald => 3
  }

  /** More progress never shows a "worse" colour. */
  lemma ToneMonotone(p: real, q: real)
    requires p <= q
    ensures ToneRank(ToneOf(p)) <= ToneRank(ToneOf(q))
  {
  }

  /** The contribution box shows while progress is below 100. */
  predicate ShowsContribution(progress: real) {
    progress < 100.0
  }

  /** The "use savings" button shows for a full, unused goal. */
  predicate ShowsUseButton(progress: real, isUsed: bool) {
    progress >= 100.0 && !isUsed
  }

  /**
   * A goal never offers both a contribution and the "use savings" button,
   * and for a positive target the button appears exactly when the saved
   * amount has reached the target and the goal is unused.
   */
  lemma ControlsExclusive(g: Goal)
    ensures !(ShowsContribution(Progress(g.currentAmount, g.targetAmount)) && ShowsUseButton(Progress(g.currentAmount, g.targetAmount), g.isUsed))
    ensures g.targetAmount > 0.0 ==>
      (ShowsUseButton(Progress(g.currentAmount, g.targetAmount), g.isUsed) <==> g.currentAmount >= g.targetAmount && !g.isUsed)
  {
    if g.targetAmount > 0.0 {
      ProgressFacts(g.currentAmount, g.currentAmount, g.targetAmount);
    }
  }

  /** `contributionAmounts[goalId] || '0'`. */
  function ContributionText(amounts: map<string, string>, goalId: string): (t: string)
    ensures t != ""
  {
    if goalId in amounts && amounts[goalId] != "" then amounts[goalId] else "0"
  }

  /** `goal?.name || fallback`. */
  function NameOr(goal: Option<Goal>, fallback: string): string {
    if goal.Some? && goal.value.name != "" then goal.value.name else fallback
  }

  /** The AHORRO transaction a contribution records, named after the goal as listed before the update. */
  function ContributionExpense(goals: seq<Goal>, goalId: string, amount: real, today: Date): (d: TxDraft)
    ensures d.kind == AHORRO && d.amount == amount && d.date == today
  {
    var goal := GH.FindGoal(goals, goalId);
    TxDraft(AHORRO, amount, "Meta: " + NameOr(goal, "Meta financiera"),
      "Ahorro para " + NameOr(goal, "meta financiera"), today)
  }

  /** The contribution amount: the parsed text when it is a positive number. */
  function PositiveAmount(text: string): Option<real> {
    var n := ParseFloat(text);
    if n.Finite? && n.value > 0.0 then Some(n.value) else None
  }

  /** An absent or empty contribution field is never a positive amount. */
  lemma EmptyContributionIgnored(amounts: map<string, string>, goalId: string)
    requires goalId !in amounts || amounts[goalId] == ""
    ensures PositiveAmount(ContributionText(amounts, goalId)).None?
  {
    ParseEmpty();
  }

  /** The goal list's ids are pairwise distinct. */
  predicate DistinctIds(goals: seq<Goal>) {
    forall i, j :: 0 <= i < j < |goals| ==> goals[i].id != goals[j].id
  }

  /** Goals loaded from rows with increasing ids have distinct ids. */
  lemma LoadedIdsDistinct(rows: seq<GoalRow>, owner: string)
    requires GoalIdsIncreasing(rows)
    ensures DistinctIds(GH.LoadGoals(rows, owner))
  {
    var mine := Where(rows, GoalOwnedBy(owner));
    var l := GH.LoadGoals(rows, owner);
    forall i, j | 0 <= i < j < |l| ensures l[i].id != l[j].id {
      WhereSubsequence(rows, GoalOwnedBy(owner), i, j);
      ShowNatInjective(mine[i].id, mine[j].id);
    }
  }

  /** Setting the amount of the one goal with that id changes the goal total by the difference. */
  lemma {:induction false} GoalSavingsWithAmount(goals: seq<Goal>, k: int, v: real)
    requires DistinctIds(goals) && 0 <= k < |goals|
    ensures Dashboard.TotalGoalSavings(GH.WithAmount(goals, goals[k].id, v))
      == Dashboard.TotalGoalSavings(goals) - goals[k].currentAmount + v
  {
    var id := goals[k].id;
    var n := |goals|;
    var init, last := goals[..n - 1], goals[n - 1];
    var after := GH.WithAmount(goals, id, v);
    var afterInit := GH.WithAmount(init, id, v);
    assert after[..n - 1] == afterInit;
    if k == n - 1 {
      forall j | 0 <= j < n - 1 ensures afterInit[j] == init[j] {
        assert goals[j].id != goals[n - 1].id;
      }
      assert afterInit == init;
    } else {
      assert last.id != id;
      assert init[k] == goals[k];
      GoalSavingsWithAmount(init, k, v);
    }
  }

  /** A contribution raises the goal total by exactly the amount. */
  lemma ContributionFillsGoal(goals: seq<Goal>, goalId: string, amount: real)
    requires DistinctIds(goals) && GH.FindGoal(goals, goalId).Some?
    ensures Dashboard.TotalGoalSavings(GH.WithAmount(goals, goalId, GH.FindGoal(goals, goalId).value.currentAmount + amount))
      == Dashboard.TotalGoalSavings(goals) + amount
  {
    var k := GH.IndexOfId(goals, goalId);
    assert GH.FindGoal(goals, goalId) == Some(goals[k]);
    var v := goals[k].currentAmount + amount;
    GoalSavingsWithAmount(goals, k, v);
    assert GH.WithAmount(goals, goals[k].id, v) == GH.WithAmount(goals, goalId, v);
  }

  /**
   * ... and lowers the accumulated balance by the same amount, through the
   * AHORRO transaction it records, when that is dated in or before the
   * selected month: the contribution moves money rather than creating it.
   */
  lemma ContributionLeavesBalance(goals: seq<Goal>, goalId: string, amount: real,
                                  txs: seq<Transaction>, today: Date, year: int, month: int)
    requires 0 <= month < 12 && AtOrBefore(today, LastDayOfMonth(year, month))
    ensures var t := TH.ToTransaction(TH.NewRow(ContributionExpense(goals, goalId, amount, today)));
      Dashboard.AccumulatedBalance(txs + [t], year, month) == Dashboard.AccumulatedBalance(txs, year, month) - amount
  {
    var d := ContributionExpense(goals, goalId, amount, today);
    var t := TH.ToTransaction(TH.NewRow(d));
    assert t.kind == AHORRO && t.amount == amount && t.date == today;
    Dashboard.AccumulatedBalanceAppend(txs, t, year, month);
  }

  /** The `metas` rows after `updateGoal(goalId, amount)`: the listed goal's amount plus `amount`, if it is listed. */
  function ContributedRows(rows: seq<GoalRow>, listed: seq<Goal>, goalId: string, amount: real, ok: bool): seq<GoalRow> {
    var found := GH.FindGoal(listed, goalId);
    if found.Some? && ok then SetAccumulated(rows, goalId, found.value.currentAmount + amount) else rows
  }

  /** The guard of `handleWithdrawFreeSaving`: the amount, when it is positive and the reason is not blank. */
  function WithdrawRequest(amountText: string, reason: string): (r: Option<real>)
    ensures r.Some? <==> PositiveAmount(amountText).Some? && Trim(reason) != ""
    ensures r.Some? ==> r == PositiveAmount(amountText)
  {
    if Trim(reason) == "" then None else PositiveAmount(amountText)
  }

  class GoalsSectionState {
    const goalsHook: GH.GoalsState
    const txHook: TH.TransactionsState
    const freeHook: FS.FreeSavingsState
    var contributionAmounts: map<string, string>
    var freeSavingAmount: string
    var withdrawAmount: string
    var withdrawDescription: string

    constructor (goalsHook: GH.GoalsState, txHook: TH.TransactionsState, freeHook: FS.FreeSavingsState)
      ensures this.goalsHook == goalsHook && this.txHook == txHook && this.freeHook == freeHook
      ensures contributionAmounts == map[] && freeSavingAmount == "" && withdrawAmount == "" && withdrawDescription == ""
    {
      this.goalsHook := goalsHook;
      this.txHook := txHook;
      this.freeHook := freeHook;
      contributionAmounts := map[];
      freeSavingAmount := "";
      withdrawAmount := "";
      withdrawDescription := "";
    }

    /**
     * `handleContribution`: for a positive amount, add it to the goal,
     * record it as an AHORRO transaction and clear that goal's field;
     * anything else changes nothing.
     */
    method HandleContribution(goalId: string, today: Date, goalOk: bool, goalFetchOk: bool, txOk: bool, txFetchOk: bool)
      requires goalsHook.Valid() && goalsHook.db == txHook.db
      modifies this`contributionAmounts, goalsHook`goals, goalsHook`loading, txHook`transactions, txHook`loading
      modifies goalsHook.db`metas, goalsHook.db`transacciones, goalsHook.db`nextId
      ensures goalsHook.Valid()
      ensures PositiveAmount(ContributionText(old(contributionAmounts), goalId)).None? ==>
        && contributionAmounts == old(contributionAmounts)
        && goalsHook.db.metas == old(goalsHook.db.metas) && goalsHook.db.transacciones == old(goalsHook.db.transacciones)
      ensures PositiveAmount(ContributionText(old(contributionAmounts), goalId)).Some? ==>
        contributionAmounts == old(contributionAmounts)[goalId := ""]
      ensures PositiveAmount(ContributionText(old(contributionAmounts), goalId)).Some? ==>
        goalsHook.db.metas == ContributedRows(old(goalsHook.db.metas), old(goalsHook.goals), goalId,
                                              PositiveAmount(ContributionText(old(contributionAmounts), goalId)).value, goalOk)
      ensures PositiveAmount(ContributionText(old(contributionAmounts), goalId)).Some? ==>
        goalsHook.db.transacciones == (if txOk then old(goalsHook.db.transacciones)
          + [TH.NewRow(ContributionExpense(old(goalsHook.goals), goalId,
               PositiveAmount(ContributionText(old(contributionAmounts), goalId)).value, today)).(id := old(goalsHook.db.nextId))]
          else old(goalsHook.db.transacciones))
      ensures PositiveAmount(ContributionText(old(contributionAmounts), goalId)).None? ==>
        goalsHook.goals == old(goalsHook.goals) && txHook.transactions == old(txHook.transactions)
      ensures PositiveAmount(ContributionText(old(contributionAmounts), goalId)).Some? ==>
        goalsHook.goals == GH.AfterContribution(old(goalsHook.db.metas), old(goalsHook.goals), goalsHook.usuarioId, goalId,
                             PositiveAmount(ContributionText(old(contributionAmounts), goalId)).value, goalOk, goalFetchOk).1
      ensures PositiveAmount(ContributionText(old(contributionAmounts), goalId)).Some? ==>
        txHook.transactions == if txOk && txFetchOk then TH.LoadTransactions(goalsHook.db.transacciones, txHook.usuarioId)
                               else old(txHook.transactions)
    {
      var amount := PositiveAmount(ContributionText(contributionAmounts, goalId));
      if amount.None? {
        return;
      }
      Contribute(goalId, amount.value, today, goalOk, goalFetchOk, txOk, txFetchOk);
      contributionAmounts := contributionAmounts[goalId := ""];
    }

    /** The two writes of a contribution: the goal's new amount, then the savings expense. */
    method Contribute(goalId: string, amount: real, today: Date, goalOk: bool, goalFetchOk: bool, txOk: bool, txFetchOk: bool)
      requires goalsHook.Valid() && goalsHook.db == txHook.db
      modifies goalsHook`goals, goalsHook`loading, txHook`transactions, txHook`loading
      modifies goalsHook.db`metas, goalsHook.db`transacciones, goalsHook.db`nextId
      ensures goalsHook.Valid()
      ensures goalsHook.db.metas == ContributedRows(old(goalsHook.db.metas), old(goalsHook.goals), goalId, amount, goalOk)
      ensures goalsHook.db.transacciones == (if txOk then old(goalsHook.db.transacciones)
          + [TH.NewRow(ContributionExpense(old(goalsHook.goals), goalId, amount, today)).(id := old(goalsHook.db.nextId))]
          else old(goalsHook.db.transacciones))
      ensures goalsHook.goals == GH.AfterContribution(old(goalsHook.db.metas), old(goalsHook.goals), goalsHook.usuarioId,
                                                      goalId, amount, goalOk, goalFetchOk).1
      ensures txHook.transactions == if txOk && txFetchOk then TH.LoadTransactions(goalsHook.db.transacciones, txHook.usuarioId)
                                     else old(txHook.transactions)
    {
      var listed := goalsHook.goals;
      var db := goalsHook.db;
      ghost var metas0, txs0, next0 := db.metas, db.transacciones, db.nextId;
      goalsHook.UpdateGoalAmount(goalId, amount, goalOk, goalFetchOk);
      assert db.metas == ContributedRows(metas0, listed, goalId, amount, goalOk);
      assert db.transacciones == txs0 && db.nextId == next0;
      ghost var metas1 := db.metas;
      var _ := txHook.AddTransaction(ContributionExpense(listed, goalId, amount, today), txOk, txFetchOk);
      assert db.metas == metas1;
    }

    /** `handleDeleteGoal`: delete only after the user confirms. */
    method HandleDeleteGoal(goalId: string, confirmed: bool, ok: bool)
      requires goalsHook.Valid()
      modifies goalsHook`goals, goalsHook.db`metas
      ensures goalsHook.Valid()
      ensures goalsHook.db.metas == if confirmed && ok then Where(old(goalsHook.db.metas), GoalIdIsNot(goalId)) else old(goalsHook.db.metas)
      ensures goalsHook.goals == if confirmed && ok then Where(old(goalsHook.goals), GH.GoalIdNot(goalId)) else old(goalsHook.goals)
    {
      if confirmed {
        goalsHook.DeleteGoal(goalId, ok);
      }
    }

    /**
     * `handleUseGoalSaving` as wired in `Dashboard`: for a listed goal and a
     * confirmation it calls the hook's `useGoalSavings` directly, so the goal
     * is marked used and no expense is recorded.
     */
    method HandleUseGoalSaving(goalId: string, confirmed: bool, ok: bool, fetchOk: bool)
      requires goalsHook.Valid()
      modifies goalsHook`goals, goalsHook`loading, goalsHook.db`metas
      ensures goalsHook.Valid()
      ensures goalsHook.db.metas ==
        if GH.FindGoal(old(goalsHook.goals), goalId).Some? && confirmed && ok then SetCompleted(old(goalsHook.db.metas), goalId)
        else old(goalsHook.db.metas)
      ensures goalsHook.db.transacciones == old(goalsHook.db.transacciones)
      ensures goalsHook.goals ==
        if GH.FindGoal(old(goalsHook.goals), goalId).Some? && confirmed && ok && fetchOk
        then GH.LoadGoals(goalsHook.db.metas, goalsHook.usuarioId)
        else old(goalsHook.goals)
      ensures GH.FindGoal(old(goalsHook.goals), goalId).Some? && confirmed && ok && fetchOk
              && old(goalsHook.goals) == GH.LoadGoals(old(goalsHook.db.metas), goalsHook.usuarioId) ==>
        goalsHook.goals == GH.MarkUsed(old(goalsHook.goals), goalId)
    {
      var goal := GH.FindGoal(goalsHook.goals, goalId);
      if goal.Some? && confirmed {
        goalsHook.UseGoalSavings(goalId, ok, fetchOk);
      }
    }

    /**
     * The same handler wired to `handleUseGoalSavings`, as the dashboard
     * defines it: the goal is marked used and its amount recorded as an
     * expense.
     */
    method HandleUseGoalSavingIntended(goalId: string, confirmed: bool, formattedAmount: string, today: Date,
                                       goalOk: bool, goalFetchOk: bool, txOk: bool, txFetchOk: bool)
      requires goalsHook.Valid() && goalsHook.db == txHook.db
      modifies goalsHook`goals, goalsHook`loading, txHook`transactions, txHook`loading
      modifies goalsHook.db`metas, goalsHook.db`transacciones, goalsHook.db`nextId
      ensures goalsHook.Valid()
      ensures confirmed && Dashboard.CanUse(old(goalsHook.goals), goalId) ==>
        var g := GH.FindGoal(old(goalsHook.goals), goalId).value;
        && goalsHook.db.metas == (if goalOk then SetCompleted(old(goalsHook.db.metas), goalId) else old(goalsHook.db.metas))
        && goalsHook.db.transacciones == (if txOk then old(goalsHook.db.transacciones)
             + [TH.NewRow(Dashboard.UseExpense(g, formattedAmount, today)).(id := old(goalsHook.db.nextId))]
           else old(goalsHook.db.transacciones))
        && goalsHook.goals == (if goalOk && goalFetchOk then GH.LoadGoals(goalsHook.db.metas, goalsHook.usuarioId)
                               else old(goalsHook.goals))
        && txHook.transactions == (if txOk && txFetchOk then TH.LoadTransactions(goalsHook.db.transacciones, txHook.usuarioId)
                                   else old(txHook.transactions))
      ensures !(confirmed && Dashboard.CanUse(old(goalsHook.goals), goalId)) ==>
        && goalsHook.db.metas == old(goalsHook.db.metas) && goalsHook.db.transacciones == old(goalsHook.db.transacciones)
        && goalsHook.goals == old(goalsHook.goals) && txHook.transactions == old(txHook.transactions)
    {
      var goal := GH.FindGoal(goalsHook.goals, goalId);
      if goal.Some? && confirmed {
        Dashboard.HandleUseGoalSavings(goalsHook, txHook, goalId, formattedAmount, today, goalOk, goalFetchOk, txOk, txFetchOk);
      }
    }

    /** `handleAddFreeSaving`: a positive amount is deposited and the field cleared. */
    method HandleAddFreeSaving(selectOk: bool, writeOk: bool, fetchOk: bool)
      requires freeHook.db.Valid()
      modifies this`freeSavingAmount, freeHook`entries, freeHook`total, freeHook`loading, freeHook.db`ahorroLibre, freeHook.db`nextId
      ensures freeHook.db.Valid()
      ensures PositiveAmount(old(freeSavingAmount)).None? ==>
        freeSavingAmount == old(freeSavingAmount) && freeHook.db.ahorroLibre == old(freeHook.db.ahorroLibre)
      ensures PositiveAmount(old(freeSavingAmount)).Some? ==>
        && freeSavingAmount == ""
        && freeHook.db.ahorroLibre == (if selectOk && writeOk
             then FS.Deposited(old(freeHook.db.ahorroLibre), freeHook.usuarioId, old(freeHook.db.nextId), PositiveAmount(old(freeSavingAmount)).value)
             else old(freeHook.db.ahorroLibre))
      ensures var reloaded := PositiveAmount(old(freeSavingAmount)).Some? && selectOk && fetchOk;
        && freeHook.entries == (if reloaded then FS.LoadEntries(freeHook.db.ahorroLibre, freeHook.usuarioId) else old(freeHook.entries))
        && freeHook.total == (if reloaded then FS.OwnerTotal(freeHook.db.ahorroLibre, freeHook.usuarioId) else old(freeHook.total))
    {
      var amount := PositiveAmount(freeSavingAmount);
      if amount.Some? {
        freeHook.AddFreeSaving(amount.value, selectOk, writeOk, fetchOk);
        freeSavingAmount := "";
      }
    }

    /** `handleWithdrawFreeSaving`: needs a positive amount and a non-blank reason; the reason is then discarded. */
    method HandleWithdrawFreeSaving(selectOk: bool, writeOk: bool, fetchOk: bool)
      requires freeHook.db.Valid()
      modifies this`withdrawAmount, this`withdrawDescription, freeHook`entries, freeHook`total, freeHook`loading, freeHook.db`ahorroLibre
      ensures freeHook.db.Valid()
      ensures var req := WithdrawRequest(old(withdrawAmount), old(withdrawDescription));
        && (req.None? ==> withdrawAmount == old(withdrawAmount) && withdrawDescription == old(withdrawDescription))
        && (req.Some? ==> withdrawAmount == "" && withdrawDescription == "")
        && freeHook.db.ahorroLibre == (if req.Some?
             then FS.AfterWithdraw(old(freeHook.db.ahorroLibre), freeHook.usuarioId, req.value, selectOk, writeOk)
             else old(freeHook.db.ahorroLibre))
      ensures var req := WithdrawRequest(old(withdrawAmount), old(withdrawDescription));
        var written := req.Some? && FS.WithdrawProceeds(old(freeHook.db.ahorroLibre), freeHook.usuarioId, req.value, selectOk) && writeOk;
        && (written ==> FS.OwnerTotal(freeHook.db.ahorroLibre, freeHook.usuarioId)
                          == FS.OwnerTotal(old(freeHook.db.ahorroLibre), freeHook.usuarioId) - req.value)
        && freeHook.entries == (if written && fetchOk then FS.LoadEntries(freeHook.db.ahorroLibre, freeHook.usuarioId) else old(freeHook.entries))
        && freeHook.total == (if written && fetchOk then FS.OwnerTotal(freeHook.db.ahorroLibre, freeHook.usuarioId) else old(freeHook.total))
    {
      var req := WithdrawRequest(withdrawAmount, withdrawDescription);
      if req.Some? {
        freeHook.WithdrawFreeSaving(req.value, selectOk, writeOk, fetchOk);
        withdrawAmount := "";
        withdrawDescription := "";
      }
    }
  }
}
