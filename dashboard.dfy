/**
 * The figures `Dashboard` (src/App.tsx) derives from the hooks' state for
 * the selected month and year, and its "use goal savings" handler.
 */
module Dashboard {
  import opened Wrappers
  import opened Calendar
  import opened Entities
  import opened Ledger
  import opened Store
  import GH = GoalsHook
  import TH = TransactionsHook
  import BH = BillsHook

  /** The category `monthlySavings` looks for among expenses. */
  const SAVINGS_CATEGORY: string := "Ahorro"
  /** The category of the expense recorded when goal savings are used. */
  const USE_CATEGORY: string := "Uso de Meta"

  function KindIs(kind: string): Transaction -> bool {
    (t: Transaction) => t.kind == kind
  }

  function SavingsExpense(): Transaction -> bool {
    (t: Transaction) => t.kind == GASTO && t.category == SAVINGS_CATEGORY
  }

  /** `new Date(t.date) <= currentDate && t.type === kind`. */
  function UpToOfKind(cutoff: Date, kind: string): Transaction -> bool {
    (t: Transaction) => AtOrBefore(t.date, cutoff) && t.kind == kind
  }

  /** The month's income: non-negative over non-negative amounts, and 0 when the month holds no income. */
  function MonthlyIncome(txs: seq<Transaction>, year: int, month: int): (r: real)
    ensures (forall t :: t in txs ==> t.amount >= 0.0) ==> r >= 0.0
    ensures (forall t :: t in txs && InMonth(t, year, month) ==> t.kind != INGRESO) ==> r == 0.0
  {
    var m := MonthTransactions(txs, year, month);
    TotalWhereBounds(m, KindIs(INGRESO));
    Total(Where(m, KindIs(INGRESO)))
  }

  /** The month's expenses: non-negative over non-negative amounts, and 0 when the month holds no expense. */
  function MonthlyExpenses(txs: seq<Transaction>, year: int, month: int): (r: real)
    ensures (forall t :: t in txs ==> t.amount >= 0.0) ==> r >= 0.0
    ensures (forall t :: t in txs && InMonth(t, year, month) ==> t.kind != GASTO) ==> r == 0.0
  {
    var m := MonthTransactions(txs, year, month);
    TotalWhereBounds(m, KindIs(GASTO));
    Total(Where(m, KindIs(GASTO)))
  }

  /**
   * Expenses filed under the category "Ahorro"; transactions of type AHORRO
   * do not count here, so a month without such an expense reads 0.
   */
  function MonthlySavings(txs: seq<Transaction>, year: int, month: int): (r: real)
    ensures (forall t :: t in txs ==> t.amount >= 0.0) ==> r >= 0.0
    ensures (forall t :: t in txs && InMonth(t, year, month) ==> !(t.kind == GASTO && t.category == SAVINGS_CATEGORY)) ==> r == 0.0
  {
    var m := MonthTransactions(txs, year, month);
    TotalWhereBounds(m, SavingsExpense());
    Total(Where(m, SavingsExpense()))
  }

  /** Everything of one type dated up to the last day of the selected month. */
  function TotalUpTo(txs: seq<Transaction>, year: int, month: int, kind: string): (r: real)
    requires 0 <= month < 12
    ensures (forall t :: t in txs ==> t.amount >= 0.0) ==> r >= 0.0
  {
    TotalWhereBounds(txs, UpToOfKind(LastDayOfMonth(year, month), kind));
    Total(Where(txs, UpToOfKind(LastDayOfMonth(year, month), kind)))
  }

  /**
   * `totalIncome - totalExpenses - totalSavings` over all history up to the
   * selected month; over non-negative amounts it never exceeds the income
   * to date.
   */
  function AccumulatedBalance(txs: seq<Transaction>, year: int, month: int): (r: real)
    requires 0 <= month < 12
    ensures (forall t :: t in txs ==> t.amount >= 0.0) ==> r <= TotalUpTo(txs, year, month, INGRESO)
  {
    TotalUpTo(txs, year, month, INGRESO) - TotalUpTo(txs, year, month, GASTO) - TotalUpTo(txs, year, month, AHORRO)
  }

  /** `monthlyIncome > 0 ? (monthlySavings / monthlyIncome) * 100 : 0`. */
  function SavingsRate(income: real, savings: real): (r: real)
    ensures income > 0.0 ==> r * income == savings * 100.0
    ensures income <= 0.0 ==> r == 0.0
  {
    if income > 0.0 then savings / income * 100.0 else 0.0
  }

  /** `goals.reduce((sum, goal) => sum + goal.currentAmount, 0)`. */
  function TotalGoalSavings(goals: seq<Goal>): real {
    if goals == [] then 0.0 else TotalGoalSavings(goals[..|goals| - 1]) + goals[|goals| - 1].currentAmount
  }

  /** With no negative amount, the goal savings are non-negative and at least any one goal's amount. */
  lemma {:induction false} TotalGoalSavingsBounds(goals: seq<Goal>)
    requires forall i :: 0 <= i < |goals| ==> goals[i].currentAmount >= 0.0
    ensures TotalGoalSavings(goals) >= 0.0
    ensures forall i :: 0 <= i < |goals| ==> goals[i].currentAmount <= TotalGoalSavings(goals)
  {
    if goals != [] {
      var init := goals[..|goals| - 1];
      assert forall i :: 0 <= i < |init| ==> init[i] == goals[i];
      TotalGoalSavingsBounds(init);
    }
  }

  /** `totalSavings + freeSavings`: over non-negative amounts, at least the free savings. */
  function TotalAccumulatedSavings(txs: seq<Transaction>, year: int, month: int, freeSavings: real): (r: real)
    requires 0 <= month < 12
    ensures (forall t :: t in txs ==> t.amount >= 0.0) ==> r >= freeSavings
  {
    TotalUpTo(txs, year, month, AHORRO) + freeSavings
  }

  /**
   * The accumulated savings grow by exactly a free-savings deposit, and by
   * exactly an AHORRO transaction dated up to the selected month; any other
   * transaction leaves them as they were.
   */
  lemma TotalAccumulatedSavingsGrowth(txs: seq<Transaction>, t: Transaction, year: int, month: int, freeSavings: real, deposit: real)
    requires 0 <= month < 12
    ensures TotalAccumulatedSavings(txs, year, month, freeSavings + deposit)
      == TotalAccumulatedSavings(txs, year, month, freeSavings) + deposit
    ensures TotalAccumulatedSavings(txs + [t], year, month, freeSavings)
      == TotalAccumulatedSavings(txs, year, month, freeSavings)
        + (if t.kind == AHORRO && AtOrBefore(t.date, LastDayOfMonth(year, month)) then t.amount else 0.0)
  {
    TotalWhereSnoc(txs, t, UpToOfKind(LastDayOfMonth(year, month), AHORRO));
  }

  /** One bill's share of `totalPendingDebt`: what is left to pay, never negative. */
  function Outstanding(b: Bill): (r: real)
    ensures r >= 0.0
    ensures b.paidInstallments >= b.installments ==> r == 0.0
    ensures b.paidInstallments < b.installments && b.installmentAmount >= 0.0 ==>
      r == (b.installments - b.paidInstallments) as real * b.installmentAmount
  {
    if b.paidInstallments >= b.installments then 0.0
    else
      var remaining := (b.installments - b.paidInstallments) as real * b.installmentAmount;
      if remaining > 0.0 then remaining else 0.0
  }

  /** `bills.reduce(...)` summing each bill's outstanding amount: never negative, and at least any one bill's share. */
  function PendingDebt(bills: seq<Bill>): (r: real)
    ensures r >= 0.0
    ensures forall i :: 0 <= i < |bills| ==> Outstanding(bills[i]) <= r
  {
    if bills == [] then 0.0
    else
      assert forall i :: 0 <= i < |bills| - 1 ==> bills[..|bills| - 1][i] == bills[i];
      PendingDebt(bills[..|bills| - 1]) + Outstanding(bills[|bills| - 1])
  }

  /** The debt shown is zero when every bill is paid off. */
  lemma {:induction false} PendingDebtBounds(bills: seq<Bill>)
    ensures (forall i :: 0 <= i < |bills| ==> bills[i].paidInstallments >= bills[i].installments) ==> PendingDebt(bills) == 0.0
  {
    if bills != [] {
      PendingDebtBounds(bills[..|bills| - 1]);
    }
  }

  /** One more transaction changes each monthly figure by its amount exactly when it passes that figure's filter. */
  lemma MonthlyFiguresAppend(txs: seq<Transaction>, t: Transaction, year: int, month: int)
    ensures MonthlyIncome(txs + [t], year, month)
      == MonthlyIncome(txs, year, month) + (if InMonth(t, year, month) && t.kind == INGRESO then t.amount else 0.0)
    ensures MonthlyExpenses(txs + [t], year, month)
      == MonthlyExpenses(txs, year, month) + (if InMonth(t, year, month) && t.kind == GASTO then t.amount else 0.0)
    ensures MonthlySavings(txs + [t], year, month)
      == MonthlySavings(txs, year, month) + (if InMonth(t, year, month) && t.kind == GASTO && t.category == SAVINGS_CATEGORY then t.amount else 0.0)
  {
    var m := MonthTransactions(txs, year, month);
    assert (txs + [t])[..|txs|] == txs;
    if InMonth(t, year, month) {
      assert MonthTransactions(txs + [t], year, month) == m + [t];
      TotalWhereSnoc(m, t, KindIs(INGRESO));
      TotalWhereSnoc(m, t, KindIs(GASTO));
      TotalWhereSnoc(m, t, SavingsExpense());
    } else {
      assert MonthTransactions(txs + [t], year, month) == m + [];
      assert m + [] == m;
    }
  }

  /** A filter that keeps fewer transactions of non-negative amounts totals no more. */
  lemma {:induction false} TotalWhereMonotone(s: seq<Transaction>, p: Transaction -> bool, q: Transaction -> bool)
    requires forall t :: p(t) ==> q(t)
    requires forall i :: 0 <= i < |s| ==> s[i].amount >= 0.0
    ensures Total(Where(s, p)) <= Total(Where(s, q))
  {
    if s != [] {
      var init, last := s[..|s| - 1], s[|s| - 1];
      assert init + [last] == s;
      assert forall i :: 0 <= i < |init| ==> init[i] == s[i];
      TotalWhereMonotone(init, p, q);
      TotalWhereSnoc(init, last, p);
      TotalWhereSnoc(init, last, q);
    }
  }

  /** With non-negative amounts, the month's savings never exceed its expenses, since they are a part of them. */
  lemma SavingsWithinExpenses(txs: seq<Transaction>, year: int, month: int)
    requires forall i :: 0 <= i < |txs| ==> txs[i].amount >= 0.0
    ensures 0.0 <= MonthlySavings(txs, year, month) <= MonthlyExpenses(txs, year, month)
  {
    var m := MonthTransactions(txs, year, month);
    forall i | 0 <= i < |m| ensures m[i].amount >= 0.0 {
      assert m[i] in txs;
    }
    TotalWhereMonotone(m, SavingsExpense(), KindIs(GASTO));
    var w := Where(m, SavingsExpense());
    forall i | 0 <= i < |w| ensures w[i].amount >= 0.0 {
      assert w[i] in m;
    }
    TotalNonNegative(w);
  }

  /**
   * The expense a quick payment records counts once, in the month of its
   * date: it raises that month's expenses by the installment and leaves
   * its income and its savings as they were.
   */
  lemma PaymentIsMonthlyExpense(txs: seq<Transaction>, b: Bill, today: Date, id: nat)
    ensures var t := TH.ToTransaction(BH.PaymentRow(b, today).(id := id));
      && MonthlyExpenses(txs + [t], today.year, today.month) == MonthlyExpenses(txs, today.year, today.month) + b.installmentAmount
      && MonthlyIncome(txs + [t], today.year, today.month) == MonthlyIncome(txs, today.year, today.month)
      && MonthlySavings(txs + [t], today.year, today.month) == MonthlySavings(txs, today.year, today.month)
  {
    MonthlyFiguresAppend(txs, TH.ToTransaction(BH.PaymentRow(b, today).(id := id)), today.year, today.month);
  }

  /**
   * One more transaction moves the accumulated balance up by an income,
   * down by an expense or an AHORRO transaction, and not at all when it is
   * dated after the selected month or carries any other type.
   */
  lemma AccumulatedBalanceAppend(txs: seq<Transaction>, t: Transaction, year: int, month: int)
    requires 0 <= month < 12
    ensures var before := AtOrBefore(t.date, LastDayOfMonth(year, month));
      AccumulatedBalance(txs + [t], year, month) == AccumulatedBalance(txs, year, month)
        + (if before && t.kind == INGRESO then t.amount
           else if before && (t.kind == GASTO || t.kind == AHORRO) then -t.amount
           else 0.0)
  {
    var cutoff := LastDayOfMonth(year, month);
    TotalWhereSnoc(txs, t, UpToOfKind(cutoff, INGRESO));
    TotalWhereSnoc(txs, t, UpToOfKind(cutoff, GASTO));
    TotalWhereSnoc(txs, t, UpToOfKind(cutoff, AHORRO));
  }

  /** Marking a goal used keeps every amount, so the goal savings shown do not drop. */
  lemma {:induction false} GoalSavingsUnchangedByUse(goals: seq<Goal>, id: string)
    ensures TotalGoalSavings(GH.MarkUsed(goals, id)) == TotalGoalSavings(goals)
  {
    if goals != [] {
      var init := goals[..|goals| - 1];
      assert GH.MarkUsed(goals, id)[..|goals| - 1] == GH.MarkUsed(init, id);
      GoalSavingsUnchangedByUse(init, id);
    }
  }

  /** `handleUseGoalSavings` acts on a goal of the local list that still holds savings and is not used. */
  predicate CanUse(goals: seq<Goal>, goalId: string) {
    var g := GH.FindGoal(goals, goalId);
    g.Some? && g.value.currentAmount != 0.0 && !g.value.isUsed
  }

  /** The expense `handleUseGoalSavings` records: the goal's whole amount, dated today. */
  function UseExpense(g: Goal, formattedAmount: string, today: Date): TxDraft {
    TxDraft(GASTO, g.currentAmount, USE_CATEGORY, "Se usaron " + formattedAmount + " para " + g.name, today)
  }

  /**
   * `handleUseGoalSavings`: for a usable goal, mark it used and record its
   * amount as an expense; anything else changes nothing.  The two store
   * calls are issued one after the other.
   */
  method HandleUseGoalSavings(goals: GH.GoalsState, txs: TH.TransactionsState, goalId: string,
                              formattedAmount: string, today: Date,
                              goalOk: bool, goalFetchOk: bool, txOk: bool, txFetchOk: bool)
    requires goals.Valid() && goals.db == txs.db
    modifies goals`goals, goals`loading, txs`transactions, txs`loading, goals.db`metas, goals.db`transacciones, goals.db`nextId
    ensures goals.Valid()
    ensures !CanUse(old(goals.goals), goalId) ==>
      goals.db.metas == old(goals.db.metas) && goals.db.transacciones == old(goals.db.transacciones)
      && goals.goals == old(goals.goals) && txs.transactions == old(txs.transactions)
    ensures CanUse(old(goals.goals), goalId) ==>
      var g := GH.FindGoal(old(goals.goals), goalId).value;
      && goals.db.metas == (if goalOk then SetCompleted(old(goals.db.metas), goalId) else old(goals.db.metas))
      && goals.db.transacciones == (if txOk then old(goals.db.transacciones) + [TH.NewRow(UseExpense(g, formattedAmount, today)).(id := old(goals.db.nextId))]
                                   else old(goals.db.transacciones))
      && goals.goals == (if goalOk && goalFetchOk then GH.LoadGoals(goals.db.metas, goals.usuarioId) else old(goals.goals))
      && txs.transactions == (if txOk && txFetchOk then TH.LoadTransactions(goals.db.transacciones, txs.usuarioId)
                              else old(txs.transactions))
  {
    var goal := GH.FindGoal(goals.goals, goalId);
    if goal.None? || goal.value.currentAmount == 0.0 || goal.value.isUsed {
      return;
    }
    var amount := goal.value.currentAmount;
    goals.UseGoalSavings(goalId, goalOk, goalFetchOk);
    var _ := txs.AddTransaction(UseExpense(goal.value, formattedAmount, today), txOk, txFetchOk);
  }
}
