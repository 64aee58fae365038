/**
 * `AlertsSection` (src/components/AlertsSection.tsx): the alert rules — a
 * budget alert, a low savings-rate alert, one alert per goal close to its
 * deadline, one alert for completed goals — built by successive pushes,
 * followed by the fixed monthly reminder.
 */
module Alerts {
  import opened Numbers
  import opened Entities
  import opened Ledger
  import opened Store
  import GoalsSection

  datatype Alert =
    | Budget(percentage: real)
    | LowSavings(rate: real)
    | Deadline(name: string, daysLeft: Num, progress: Num)
    | Completed(count: nat)
    | Reminder

  /** `monthlyIncome > 0 ? (monthlyExpenses / monthlyIncome) * 100 : 0`. */
  function BudgetPercentage(income: real, expenses: real): (r: real)
    ensures income <= 0.0 ==> r == 0.0
    ensures income > 0.0 ==> r * income == expenses * 100.0
  {
    if income > 0.0 then expenses / income * 100.0 else 0.0
  }

  /** `monthlyIncome > 0 ? ((monthlyIncome - monthlyExpenses) / monthlyIncome) * 100 : 0`. */
  function AlertSavingsRate(income: real, expenses: real): (r: real)
    ensures income <= 0.0 ==> r == 0.0
    ensures income > 0.0 ==> r * income == (income - expenses) * 100.0
  {
    if income > 0.0 then (income - expenses) / income * 100.0 else 0.0
  }

  /** Spending above the recommended budget of 70 % of the income. */
  predicate OverBudget(income: real, expenses: real) {
    expenses > income * 0.7
  }

  predicate LowSavingsRate(income: real, expenses: real) {
    AlertSavingsRate(income, expenses) < 20.0 && income > 0.0
  }

  /** `(goal.currentAmount / goal.targetAmount) * 100`, with no guard for a zero target. */
  function GoalProgress(g: Goal): (p: Num)
    ensures g.targetAmount != 0.0 ==> p.Finite? && p.value * g.targetAmount == g.currentAmount * 100.0
  {
    var q := Div(g.currentAmount, g.targetAmount);
    var p := Scale(q, 100.0);
    if g.targetAmount == 0.0 then p
    else
      assert q.value * g.targetAmount == g.currentAmount;
      assert p.value * g.targetAmount == q.value * g.targetAmount * 100.0;
      p
  }

  /** A goal due within 30 days and not yet reached. */
  function NearDeadline(nowMs: int): Goal -> bool {
    (g: Goal) =>
      var days := GoalsSection.DaysUntilTarget(g.targetDate, nowMs);
      AtMost(days, 30.0) && Greater(days, 0.0) && Less(GoalProgress(g), 100.0)
  }

  function IsComplete(): Goal -> bool {
    (g: Goal) => AtLeast(GoalProgress(g), 100.0)
  }

  function DeadlineAlert(nowMs: int): Goal -> Alert {
    (g: Goal) => Deadline(g.name, GoalsSection.DaysUntilTarget(g.targetDate, nowMs), GoalProgress(g))
  }

  /** The budget and savings alerts, pushed before any goal alert. */
  function LeadingAlerts(income: real, expenses: real): seq<Alert> {
    (if OverBudget(income, expenses) then [Budget(BudgetPercentage(income, expenses))] else [])
    + (if LowSavingsRate(income, expenses) then [LowSavings(AlertSavingsRate(income, expenses))] else [])
  }

  /**
   * The system alerts, in the order they are pushed: at most one per goal
   * plus three, and none at all exactly when spending is within budget,
   * the savings rate is not low and no goal is near its deadline or
   * complete.
   */
  function SystemAlerts(income: real, expenses: real, goals: seq<Goal>, nowMs: int): (a: seq<Alert>)
    ensures |a| <= |goals| + 3
    ensures a == [] <==>
      && !OverBudget(income, expenses) && !LowSavingsRate(income, expenses)
      && forall g :: g in goals ==> !NearDeadline(nowMs)(g) && !IsComplete()(g)
  {
    var completed := Where(goals, IsComplete());
    var upcoming := Where(goals, NearDeadline(nowMs));
    WhereEmpty(goals, NearDeadline(nowMs));
    WhereEmpty(goals, IsComplete());
    LeadingAlerts(income, expenses)
    + Map(upcoming, DeadlineAlert(nowMs))
    + (if |completed| > 0 then [Completed(|completed|)] else [])
  }

  /**
   * The component body: pushes the budget and savings alerts, then one
   * deadline alert per goal in a `forEach`, then the completed-goals alert;
   * returns the alerts followed by the reminder, and the count shown.
   */
  method BuildAlerts(income: real, expenses: real, goals: seq<Goal>, nowMs: int) returns (allAlerts: seq<Alert>, shownCount: nat)
    ensures allAlerts == SystemAlerts(income, expenses, goals, nowMs) + [Reminder]
    ensures shownCount == |allAlerts| - 1
  {
    var alerts: seq<Alert> := [];
    if expenses > income * 0.7 {
      alerts := alerts + [Budget(BudgetPercentage(income, expenses))];
    }
    var savingsRate := AlertSavingsRate(income, expenses);
    if savingsRate < 20.0 && income > 0.0 {
      alerts := alerts + [LowSavings(savingsRate)];
    }
    assert alerts == LeadingAlerts(income, expenses);
    alerts := PushDeadlines(alerts, goals, nowMs);
    var completed := Where(goals, IsComplete());
    if |completed| > 0 {
      alerts := alerts + [Completed(|completed|)];
    }
    allAlerts := alerts + [Reminder];
    shownCount := |alerts|;
  }

  /** The `forEach` over the goals near their deadline, pushing one deadline alert each. */
  method PushDeadlines(alerts: seq<Alert>, goals: seq<Goal>, nowMs: int) returns (pushed: seq<Alert>)
    ensures pushed == alerts + Map(Where(goals, NearDeadline(nowMs)), DeadlineAlert(nowMs))
  {
    var upcoming := Where(goals, NearDeadline(nowMs));
    pushed := alerts;
    var i := 0;
    while i < |upcoming|
      invariant 0 <= i <= |upcoming|
      invariant pushed == alerts + Map(upcoming[..i], DeadlineAlert(nowMs))
    {
      var g := upcoming[i];
      pushed := pushed + [Deadline(g.name, GoalsSection.DaysUntilTarget(g.targetDate, nowMs), GoalProgress(g))];
      assert upcoming[..i + 1] == upcoming[..i] + [g];
      MapSnoc(upcoming[..i], g, DeadlineAlert(nowMs));
      i := i + 1;
    }
    assert upcoming[..i] == upcoming;
  }

  /** The position of each kind of alert in the pushed order. */
  function Rank(a: Alert): nat {
    match a
    case Budget(_) => 0
    case LowSavings(_) => 1
    case Deadline(_, _, _) => 2
    case Completed(_) => 3
    case Reminder => 4
  }

  /** The budget alert is raised exactly when expenses exceed 70 % of the income, and then it comes first. */
  lemma BudgetAlertRule(income: real, expenses: real, goals: seq<Goal>, nowMs: int)
    ensures var a := SystemAlerts(income, expenses, goals, nowMs);
      (exists i :: 0 <= i < |a| && a[i].Budget?) <==> expenses > income * 0.7
    ensures var a := SystemAlerts(income, expenses, goals, nowMs);
      expenses > income * 0.7 ==> a[0] == Budget(BudgetPercentage(income, expenses))
  {
    var a := SystemAlerts(income, expenses, goals, nowMs);
    if expenses > income * 0.7 {
      assert a[0].Budget?;
    }
  }

  /**
   * The savings alert is raised exactly when there is income and the
   * expenses exceed 80 % of it; such spending is also over budget, so the
   * savings alert never appears without the budget alert.
   */
  lemma SavingsAlertRule(income: real, expenses: real, goals: seq<Goal>, nowMs: int)
    ensures var a := SystemAlerts(income, expenses, goals, nowMs);
      (exists i :: 0 <= i < |a| && a[i].LowSavings?) <==> income > 0.0 && expenses > income * 0.8
    ensures LowSavingsRate(income, expenses) ==> OverBudget(income, expenses)
  {
    var p := if OverBudget(income, expenses) then [Budget(BudgetPercentage(income, expenses))] else [];
    var q := if LowSavingsRate(income, expenses) then [LowSavings(AlertSavingsRate(income, expenses))] else [];
    var completed := Where(goals, IsComplete());
    var rest := Map(Where(goals, NearDeadline(nowMs)), DeadlineAlert(nowMs))
      + (if |completed| > 0 then [Completed(|completed|)] else []);
    var a := SystemAlerts(income, expenses, goals, nowMs);
    assert a == p + q + rest;
    assert forall x :: x in rest ==> !x.LowSavings?;
    if income > 0.0 {
      RateBelowTwenty(income, expenses);
    }
    if LowSavingsRate(income, expenses) {
      assert a[|p|].LowSavings?;
    }
  }

  /** A savings rate below 20 % means spending above 80 % of a positive income. */
  lemma RateBelowTwenty(income: real, expenses: real)
    requires income > 0.0
    ensures AlertSavingsRate(income, expenses) < 20.0 <==> expenses > income * 0.8
  {
    var r := AlertSavingsRate(income, expenses);
    assert r * income == (income - expenses) * 100.0;
    if r < 20.0 {
      assert r * income < 20.0 * income;
    } else {
      assert r * income >= 20.0 * income;
    }
  }

  /** Every deadline alert is about one goal due within 30 days and not yet reached, and every such goal has one. */
  lemma DeadlineAlertRule(income: real, expenses: real, goals: seq<Goal>, nowMs: int)
    ensures var a := SystemAlerts(income, expenses, goals, nowMs);
      forall g :: g in goals && NearDeadline(nowMs)(g) ==> DeadlineAlert(nowMs)(g) in a
    ensures var a := SystemAlerts(income, expenses, goals, nowMs);
      forall x :: x in a && x.Deadline? ==> exists g :: g in goals && NearDeadline(nowMs)(g) && x == DeadlineAlert(nowMs)(g)
  {
    var up := Where(goals, NearDeadline(nowMs));
    var d := Map(up, DeadlineAlert(nowMs));
    forall g | g in goals && NearDeadline(nowMs)(g) ensures DeadlineAlert(nowMs)(g) in d {
      var k :| 0 <= k < |up| && up[k] == g;
      assert d[k] == DeadlineAlert(nowMs)(g);
    }
    forall x | x in d ensures exists g :: g in up && x == DeadlineAlert(nowMs)(g) {
      var k :| 0 <= k < |d| && d[k] == x;
      assert up[k] in up;
    }
  }

  /**
   * At most one completed-goals alert, always the last system alert; it is
   * raised exactly when some goal has reached its target, and reports how
   * many have.
   */
  lemma CompletedAlertRule(income: real, expenses: real, goals: seq<Goal>, nowMs: int)
    ensures var a := SystemAlerts(income, expenses, goals, nowMs);
      forall i :: 0 <= i < |a| - 1 ==> !a[i].Completed?
    ensures var a := SystemAlerts(income, expenses, goals, nowMs);
      (|a| > 0 && a[|a| - 1].Completed?) <==> exists g :: g in goals && IsComplete()(g)
    ensures var a := SystemAlerts(income, expenses, goals, nowMs);
      |a| > 0 && a[|a| - 1].Completed? ==> a[|a| - 1].count == |Where(goals, IsComplete())|
  {
    var completed := Where(goals, IsComplete());
    var front := LeadingAlerts(income, expenses) + Map(Where(goals, NearDeadline(nowMs)), DeadlineAlert(nowMs));
    var c := if |completed| > 0 then [Completed(|completed|)] else [];
    assert SystemAlerts(income, expenses, goals, nowMs) == front + c;
    FrontNotCompleted(income, expenses, goals, nowMs);
    CompletedOnlyLast(front, c);
    if |completed| > 0 {
      assert completed[0] in completed;
    }
  }

  /** No budget, savings or deadline alert is a completed-goals alert. */
  lemma FrontNotCompleted(income: real, expenses: real, goals: seq<Goal>, nowMs: int)
    ensures forall x :: x in LeadingAlerts(income, expenses) + Map(Where(goals, NearDeadline(nowMs)), DeadlineAlert(nowMs)) ==> !x.Completed?
  {
    var d := Map(Where(goals, NearDeadline(nowMs)), DeadlineAlert(nowMs));
    forall x | x in d ensures x.Deadline? {
      var k :| 0 <= k < |d| && d[k] == x;
    }
  }

  /** Appending at most one alert to alerts none of which is a completed-goals alert: only the appended one can be. */
  lemma CompletedOnlyLast(front: seq<Alert>, c: seq<Alert>)
    requires forall x :: x in front ==> !x.Completed?
    requires |c| <= 1
    ensures forall i :: 0 <= i < |front + c| - 1 ==> !(front + c)[i].Completed?
    ensures |front + c| > 0 && (front + c)[|front + c| - 1].Completed? <==> c != [] && c[0].Completed?
  {
    var a := front + c;
    forall i | 0 <= i < |a| - 1 ensures !a[i].Completed? {
      assert a[i] == front[i] && front[i] in front;
    }
    if c == [] && |a| > 0 {
      assert a[|a| - 1] in front;
    }
  }

  /** The alerts come in the order budget, savings rate, deadlines, completed goals, reminder. */
  lemma AlertOrder(income: real, expenses: real, goals: seq<Goal>, nowMs: int)
    ensures var a := SystemAlerts(income, expenses, goals, nowMs) + [Reminder];
      forall i, j :: 0 <= i < j < |a| ==> Rank(a[i]) <= Rank(a[j])
  {
    var p := if OverBudget(income, expenses) then [Budget(BudgetPercentage(income, expenses))] else [];
    var q := if LowSavingsRate(income, expenses) then [LowSavings(AlertSavingsRate(income, expenses))] else [];
    var d := Map(Where(goals, NearDeadline(nowMs)), DeadlineAlert(nowMs));
    var completed := Where(goals, IsComplete());
    var c := if |completed| > 0 then [Completed(|completed|)] else [];
    var a := p + q + d + c + [Reminder];
    assert SystemAlerts(income, expenses, goals, nowMs) + [Reminder] == a;
    forall x | x in d ensures Rank(x) == 2 {
      var k :| 0 <= k < |d| && d[k] == x;
    }
    RanksAscend(p, q, d, c);
  }

  /** Segments whose alerts carry ranks 0, 1, 2, 3, then the reminder, give ascending ranks. */
  lemma RanksAscend(p: seq<Alert>, q: seq<Alert>, d: seq<Alert>, c: seq<Alert>)
    requires (forall x :: x in p ==> Rank(x) == 0) && (forall x :: x in q ==> Rank(x) == 1)
    requires (forall x :: x in d ==> Rank(x) == 2) && (forall x :: x in c ==> Rank(x) == 3)
    ensures var a := p + q + d + c + [Reminder];
      forall i, j :: 0 <= i < j < |a| ==> Rank(a[i]) <= Rank(a[j])
  {
    var a := p + q + d + c + [Reminder];
    forall i, j | 0 <= i < j < |a| ensures Rank(a[i]) <= Rank(a[j]) {
      RankAt(p, q, d, c, i);
      RankAt(p, q, d, c, j);
    }
  }

  /** The segment index `k` of the concatenated alerts falls in. */
  function Segment(p: seq<Alert>, q: seq<Alert>, d: seq<Alert>, c: seq<Alert>, k: int): nat {
    if k < |p| then 0 else if k < |p| + |q| then 1 else if k < |p| + |q| + |d| then 2
    else if k < |p| + |q| + |d| + |c| then 3 else 4
  }

  lemma RankAt(p: seq<Alert>, q: seq<Alert>, d: seq<Alert>, c: seq<Alert>, k: int)
    requires (forall x :: x in p ==> Rank(x) == 0) && (forall x :: x in q ==> Rank(x) == 1)
    requires (forall x :: x in d ==> Rank(x) == 2) && (forall x :: x in c ==> Rank(x) == 3)
    requires 0 <= k < |p| + |q| + |d| + |c| + 1
    ensures Rank((p + q + d + c + [Reminder])[k]) == Segment(p, q, d, c, k)
  {
    var a := p + q + d + c + [Reminder];
    if k < |p| {
      assert a[k] == p[k];
    } else if k < |p| + |q| {
      assert a[k] == q[k - |p|];
    } else if k < |p| + |q| + |d| {
      assert a[k] == d[k - |p| - |q|];
    } else if k < |p| + |q| + |d| + |c| {
      assert a[k] == c[k - |p| - |q| - |d|];
    }
  }
}
