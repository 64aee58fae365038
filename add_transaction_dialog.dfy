/**
 * `AddTransactionDialog` (src/components/AddTransactionDialog.tsx): the
 * three tabs with their category lists, the category reset on a tab
 * change, the form reset and the submit guard and construction.
 */
module AddTransactionDialog {
  import opened Wrappers
  import opened Numbers
  import opened Calendar
  import opened Text
  import opened Entities
  import TH = TransactionsHook
  import Dashboard

  datatype Tab = IncomeTab | ExpenseTab | SavingTab

  /** The tab's value, which is also what the dialog puts in `type`. */
  function TabName(tab: Tab): (s: string)
    ensures s != INGRESO && s != GASTO && s != AHORRO
  {
    match tab
    case IncomeTab => "income"
    case ExpenseTab => "expense"
    case SavingTab => "saving"
  }

  const INCOME_CATEGORIES: seq<string> := ["Salario", "Freelance", "Inversiones", "Negocios", "Bonos", "Otros"]
  const EXPENSE_CATEGORIES: seq<string> :=
    ["Vivienda", "Alimentación", "Transporte", "Salud", "Ocio", "Educación", "Servicios", "Compras", "Otros"]
  const SAVINGS_CATEGORIES: seq<string> := ["Ahorro", "Inversión", "Fondo de Emergencia", "Meta específica", "Otros"]

  /** `getCategoriesForType`. */
  function CategoriesFor(tab: Tab): (r: seq<string>)
    ensures "Otros" in r
    ensures tab == IncomeTab <==> "Salario" in r
    ensures tab == ExpenseTab <==> "Vivienda" in r
    ensures tab == SavingTab <==> "Fondo de Emergencia" in r
  {
    match tab
    case IncomeTab => INCOME_CATEGORIES
    case ExpenseTab => EXPENSE_CATEGORIES
    case SavingTab => SAVINGS_CATEGORIES
  }

  /** The form; `date` is the picked day. */
  datatype TxForm = TxForm(amount: string, category: string, description: string, date: Date)

  /** `resetForm`: empty texts and today's date. */
  function Reset(today: Date): (f: TxForm)
    ensures f.amount == "" && f.category == "" && f.description == "" && f.date == today
  {
    TxForm("", "", "", today)
  }

  /** `onValueChange` of the tabs: the new tab, and the form with its category cleared. */
  function SwitchTab(f: TxForm, tab: Tab): (r: (Tab, TxForm))
    ensures r.0 == tab && r.1.category == ""
    ensures r.1.amount == f.amount && r.1.description == f.description && r.1.date == f.date
  {
    (tab, f.(category := ""))
  }

  predicate Incomplete(f: TxForm) {
    f.amount == "" || f.category == "" || f.description == ""
  }

  /**
   * `handleSubmit` as written: nothing when a field is empty; otherwise
   * the transaction handed to `onAddTransaction`, whose type is the tab's
   * name, and the reset form.
   */
  function Submit(tab: Tab, f: TxForm, today: Date): (r: (Option<TxDraft>, TxForm))
    requires !Incomplete(f) ==> ParseFloat(f.amount).Finite?
    ensures Incomplete(f) <==> r.0.None?
    ensures r.0.None? ==> r.1 == f
    ensures r.0.Some? ==>
      && r.1 == Reset(today)
      && r.0.value.kind == TabName(tab)
      && r.0.value.amount == ParseFloat(f.amount).value
      && r.0.value.category == f.category && r.0.value.description == f.description && r.0.value.date == f.date
  {
    if Incomplete(f) then (None, f)
    else (Some(TxDraft(TabName(tab), ParseFloat(f.amount).value, f.category, f.description, f.date)), Reset(today))
  }

  /** The type tag each tab stands for in the store. */
  function StoredKind(tab: Tab): (k: string)
    ensures k == INGRESO || k == GASTO || k == AHORRO
  {
    match tab
    case IncomeTab => INGRESO
    case ExpenseTab => GASTO
    case SavingTab => AHORRO
  }

  /** `handleSubmit` with the stored type tag of the tab. */
  function SubmitIntended(tab: Tab, f: TxForm, today: Date): (r: (Option<TxDraft>, TxForm))
    requires !Incomplete(f) ==> ParseFloat(f.amount).Finite?
    ensures Incomplete(f) <==> r.0.None?
    ensures r.0.Some? ==> r.0.value == Submit(tab, f, today).0.value.(kind := StoredKind(tab)) && r.1 == Reset(today)
  {
    match Submit(tab, f, today).0
    case None => (None, f)
    case Some(d) => (Some(d.(kind := StoredKind(tab))), Reset(today))
  }

  /** The listed transaction a submitted draft becomes once the store gives it `id`. */
  function Listed(d: TxDraft, id: nat): Transaction {
    TH.ToTransaction(TH.NewRow(d).(id := id))
  }

  /**
   * As written, a transaction entered through the dialog changes neither
   * the month's income nor its expenses nor its savings, whatever its tab
   * and amount.
   */
  lemma SubmittedNeverCounted(tab: Tab, f: TxForm, today: Date, id: nat, txs: seq<Transaction>, year: int, month: int)
    requires !Incomplete(f) && ParseFloat(f.amount).Finite?
    ensures var t := Listed(Submit(tab, f, today).0.value, id);
      && Dashboard.MonthlyIncome(txs + [t], year, month) == Dashboard.MonthlyIncome(txs, year, month)
      && Dashboard.MonthlyExpenses(txs + [t], year, month) == Dashboard.MonthlyExpenses(txs, year, month)
      && Dashboard.MonthlySavings(txs + [t], year, month) == Dashboard.MonthlySavings(txs, year, month)
  {
    Dashboard.MonthlyFiguresAppend(txs, Listed(Submit(tab, f, today).0.value, id), year, month);
  }

  /** With the stored tag, an income entered for the selected month adds exactly its amount to the month's income. */
  lemma IntendedIncomeCounted(f: TxForm, today: Date, id: nat, txs: seq<Transaction>)
    requires !Incomplete(f) && ParseFloat(f.amount).Finite?
    ensures var t := Listed(SubmitIntended(IncomeTab, f, today).0.value, id);
      Dashboard.MonthlyIncome(txs + [t], f.date.year, f.date.month)
        == Dashboard.MonthlyIncome(txs, f.date.year, f.date.month) + ParseFloat(f.amount).value
  {
    Dashboard.MonthlyFiguresAppend(txs, Listed(SubmitIntended(IncomeTab, f, today).0.value, id), f.date.year, f.date.month);
  }

  /** With the stored tag, an expense entered for the selected month adds exactly its amount to the month's expenses. */
  lemma IntendedExpenseCounted(f: TxForm, today: Date, id: nat, txs: seq<Transaction>)
    requires !Incomplete(f) && ParseFloat(f.amount).Finite?
    ensures var t := Listed(SubmitIntended(ExpenseTab, f, today).0.value, id);
      Dashboard.MonthlyExpenses(txs + [t], f.date.year, f.date.month)
        == Dashboard.MonthlyExpenses(txs, f.date.year, f.date.month) + ParseFloat(f.amount).value
  {
    Dashboard.MonthlyFiguresAppend(txs, Listed(SubmitIntended(ExpenseTab, f, today).0.value, id), f.date.year, f.date.month);
  }
}
