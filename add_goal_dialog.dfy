/**
 * `AddGoalDialog` (src/components/AddGoalDialog.tsx): the submit guard and
 * the goal it hands on, and the "months to target" analysis shown under
 * the form.  The target date text as the browser parses it is given as a
 * `Stamp`, and the current instant as `nowMs`.
 */
module AddGoalDialog {
  import opened Wrappers
  import opened Numbers
  import opened Calendar
  import opened Text
  import opened Entities
  import opened Store
  import GH = GoalsHook

  const GOAL_CATEGORIES: seq<string> :=
    ["Emergencia", "Viaje", "Educación", "Inversión", "Hogar", "Salud", "Tecnología", "Automóvil", "Entretenimiento", "Otros"]

  /** The form's text fields. */
  datatype GoalForm = GoalForm(name: string, targetAmount: string, targetDate: string, category: string, description: string)

  const EMPTY_FORM: GoalForm := GoalForm("", "", "", "", "")

  /** Some required field is empty; the description is optional. */
  predicate Incomplete(f: GoalForm) {
    f.name == "" || f.targetAmount == "" || f.targetDate == "" || f.category == ""
  }

  /**
   * `handleSubmit` as written: nothing when a required field is empty;
   * otherwise the goal handed to `onAddGoal`, without any description,
   * and the emptied form.
   */
  function SubmitGoal(f: GoalForm, parsed: Stamp): (r: (Option<GH.GoalDraft>, GoalForm))
    requires !Incomplete(f) ==> ParseFloat(f.targetAmount).Finite?
    ensures Incomplete(f) <==> r.0.None?
    ensures r.0.None? ==> r.1 == f
    ensures r.0.Some? ==>
      && r.1 == EMPTY_FORM
      && r.0.value.name == f.name && r.0.value.category == f.category && r.0.value.targetDate == parsed
      && r.0.value.targetAmount == ParseFloat(f.targetAmount).value
      && r.0.value.description == None
  {
    if Incomplete(f) then (None, f)
    else (Some(GH.GoalDraft(f.name, ParseFloat(f.targetAmount).value, parsed, f.category, None)), EMPTY_FORM)
  }

  /** `handleSubmit` passing on the description the form collects. */
  function SubmitGoalIntended(f: GoalForm, parsed: Stamp): (r: (Option<GH.GoalDraft>, GoalForm))
    requires !Incomplete(f) ==> ParseFloat(f.targetAmount).Finite?
    ensures Incomplete(f) <==> r.0.None?
    ensures r.1 == SubmitGoal(f, parsed).1
    ensures r.0.Some? ==> r.0.value == SubmitGoal(f, parsed).0.value.(description := Some(f.description))
  {
    match SubmitGoal(f, parsed).0
    case None => (None, f)
    case Some(d) => (Some(d.(description := Some(f.description))), EMPTY_FORM)
  }

  /** The goal the reload lists once the store has given the submitted draft `id`. */
  function ListedGoal(owner: string, d: GH.GoalDraft, id: nat): Goal {
    GH.ToGoal(GH.NewGoalRow(owner, d).(id := id))
  }

  /**
   * As written, the goal a complete form creates is listed after the
   * reload with no description, whatever was typed in the description
   * field.
   */
  lemma DescriptionDropped(f: GoalForm, parsed: Stamp, owner: string, rows: seq<GoalRow>, id: nat)
    requires !Incomplete(f) && ParseFloat(f.targetAmount).Finite?
    ensures var g := ListedGoal(owner, SubmitGoal(f, parsed).0.value, id);
      && g in GH.LoadGoals(rows + [GH.NewGoalRow(owner, SubmitGoal(f, parsed).0.value).(id := id)], owner)
      && g.name == f.name && g.targetAmount == ParseFloat(f.targetAmount).value
      && g.description == None && g.description != Some(f.description)
  {
    GH.AddedGoalListed(rows, owner, SubmitGoal(f, parsed).0.value, id);
  }

  /** With the description passed on, the listed goal carries exactly the typed text. */
  lemma IntendedDescriptionKept(f: GoalForm, parsed: Stamp, owner: string, rows: seq<GoalRow>, id: nat)
    requires !Incomplete(f) && ParseFloat(f.targetAmount).Finite?
    ensures var g := ListedGoal(owner, SubmitGoalIntended(f, parsed).0.value, id);
      && g in GH.LoadGoals(rows + [GH.NewGoalRow(owner, SubmitGoalIntended(f, parsed).0.value).(id := id)], owner)
      && g.name == f.name && g.targetAmount == ParseFloat(f.targetAmount).value
      && g.description == Some(f.description)
  {
    GH.AddedGoalListed(rows, owner, SubmitGoalIntended(f, parsed).0.value, id);
  }

  /** Thirty days, the month `calculateMonthsToTarget` counts in. */
  const MS_PER_MONTH: int := MS_PER_DAY * 30

  /** The analysis: whole months left and the saving needed per month. */
  datatype TimeCalculation = TimeCalculation(months: Num, monthlyRequired: Num)

  /**
   * The analysis for a parsed amount and target date: NaN months for an
   * unparseable date; otherwise the time left in 30-day months rounded up,
   * and the amount over at least one month.
   */
  function Analysis(amount: Num, target: Stamp, nowMs: int): (c: TimeCalculation)
    ensures target.Invalid? ==> c.months.NaN? && c.monthlyRequired.NaN?
    ensures target.At? ==>
      && c.months.Finite?
      && (c.months.value - 1.0) * MS_PER_MONTH as real < (target.ms - nowMs) as real
      && (target.ms - nowMs) as real <= c.months.value * MS_PER_MONTH as real
    ensures amount.NaN? ==> c.monthlyRequired.NaN?
  {
    match target
    case Invalid => TimeCalculation(NaN, NaN)
    case At(ms) =>
      var months := CeilDiv(ms - nowMs, MS_PER_MONTH);
      var required := if amount.Finite? then Div(amount.value, Max(months, 1) as real) else NaN;
      assert (months - 1) * MS_PER_MONTH < ms - nowMs <= months * MS_PER_MONTH;
      TimeCalculation(Finite(months as real), required)
  }

  /** `calculateMonthsToTarget`: nothing until both the date and the amount are filled. */
  function MonthsToTarget(f: GoalForm, target: Stamp, nowMs: int): (r: Option<TimeCalculation>)
    ensures r.None? <==> f.targetDate == "" || f.targetAmount == ""
    ensures r.Some? ==> r.value == Analysis(ParseFloat(f.targetAmount), target, nowMs)
  {
    if f.targetDate != "" && f.targetAmount != "" then Some(Analysis(ParseFloat(f.targetAmount), target, nowMs))
    else None
  }

  /** `timeCalculation && timeCalculation.months > 0`: the analysis box is shown. */
  predicate AnalysisShown(r: Option<TimeCalculation>) {
    r.Some? && Greater(r.value.months, 0.0)
  }

  /** The weekly figure the box shows: a quarter of the monthly one. */
  function WeeklyRequired(c: TimeCalculation): (w: Num)
    ensures c.monthlyRequired.Finite? <==> w.Finite?
    ensures w.Finite? ==> w.value * 4.0 == c.monthlyRequired.value
  {
    match c.monthlyRequired
    case Finite(v) => Div(v, 4.0)
    case other => other
  }

  /**
   * The analysis is shown exactly when both fields are filled and the
   * target date is valid and still ahead.
   */
  lemma AnalysisShownWhenAhead(f: GoalForm, target: Stamp, nowMs: int)
    ensures AnalysisShown(MonthsToTarget(f, target, nowMs))
      <==> f.targetDate != "" && f.targetAmount != "" && target.At? && target.ms > nowMs
  {
    if target.At? {
      var q := CeilDiv(target.ms - nowMs, MS_PER_MONTH);
      CeilDivPositive(target.ms - nowMs, MS_PER_MONTH, q);
      assert Analysis(ParseFloat(f.targetAmount), target, nowMs).months == Finite(q as real);
    }
  }

  /**
   * For a target still ahead and a parsed amount, the monthly figure
   * times the months, and the weekly figure times four weeks times the
   * months, give back the amount.
   */
  lemma AnalysisCovers(amount: real, ms: int, nowMs: int)
    requires ms > nowMs
    ensures var c := Analysis(Finite(amount), At(ms), nowMs);
      && c.months.value > 0.0
      && c.monthlyRequired.Finite?
      && c.monthlyRequired.value * c.months.value == amount
      && WeeklyRequired(c).value * 4.0 * c.months.value == amount
  {
    var q := CeilDiv(ms - nowMs, MS_PER_MONTH);
    CeilDivPositive(ms - nowMs, MS_PER_MONTH, q);
    assert Max(q, 1) == q;
    var c := Analysis(Finite(amount), At(ms), nowMs);
    assert c == TimeCalculation(Finite(q as real), Div(amount, q as real));
    SplitCovers(amount, q as real, c);
  }

  /** A ceiling quotient by a positive divisor is positive exactly when the dividend is. */
  lemma CeilDivPositive(a: int, b: int, q: int)
    requires b > 0 && (q - 1) * b < a <= q * b
    ensures q > 0 <==> a > 0
  {
    if q > 0 {
      assert q * b > 0;
    } else {
      assert q * b <= 0;
    }
  }

  /** The amount spread over `months` months, and each month over four weeks, adds back up. */
  lemma SplitCovers(amount: real, months: real, c: TimeCalculation)
    requires months > 0.0 && c.months == Finite(months) && c.monthlyRequired == Div(amount, months)
    ensures c.monthlyRequired.Finite? && c.monthlyRequired.value * c.months.value == amount
    ensures WeeklyRequired(c).value * 4.0 * c.months.value == amount
  {
    var w := WeeklyRequired(c).value;
    assert w * 4.0 == c.monthlyRequired.value;
  }
}
