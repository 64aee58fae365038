/**
 * `useGoals` (src/hooks/useGoals.ts): the user's savings goals, with add,
 * delete, contribution and the "completed/used" flag.
 */
module GoalsHook {
  import opened Wrappers
  import opened Calendar
  import opened Text
  import opened Entities
  import opened Ledger
  import opened Store

  /** The goal fields a caller supplies (`Omit<Goal, "id" | "currentAmount" | "isUsed">`). */
  datatype GoalDraft = GoalDraft(
    name: string, targetAmount: real, targetDate: Stamp, category: string, description: Option<string>)

  /** The row-to-record mapping of `fetchGoals`. */
  function ToGoal(r: GoalRow): Goal {
    Goal(ShowNat(r.id), r.nombre, r.montoObjetivo, r.montoAcumulado, r.fechaLimite, r.categoria, r.completada, r.descripcion)
  }

  /** The row `addGoal` inserts: nothing saved yet and not completed. */
  function NewGoalRow(owner: string, draft: GoalDraft): GoalRow {
    GoalRow(0, owner, draft.name, draft.targetAmount, 0.0, draft.targetDate, false, draft.category, draft.description)
  }

  /** What a successful fetch leaves in state: the owner's rows in table order. */
  function LoadGoals(rows: seq<GoalRow>, owner: string): seq<Goal> {
    Map(Where(rows, GoalOwnedBy(owner)), ToGoal)
  }

  /** A fetch lists one goal for each of the owner's rows, converted field by field, and nothing else. */
  lemma LoadGoalsCorrect(rows: seq<GoalRow>, owner: string)
    ensures |LoadGoals(rows, owner)| <= |rows|
    ensures forall r :: r in rows && r.owner == owner ==> ToGoal(r) in LoadGoals(rows, owner)
    ensures forall g :: g in LoadGoals(rows, owner) ==> exists r :: r in rows && r.owner == owner && g == ToGoal(r)
  {
    LoadedFrom(rows, GoalOwnedBy(owner), ToGoal);
  }

  /** The position `find` stops at: the first goal with that id, or the length when there is none. */
  function IndexOfId(goals: seq<Goal>, id: string): (k: nat)
    ensures k <= |goals|
    ensures k < |goals| ==> goals[k].id == id
    ensures forall j :: 0 <= j < k ==> goals[j].id != id
  {
    if goals == [] || goals[0].id == id then 0
    else 1 + IndexOfId(goals[1..], id)
  }

  /** `goals.find(g => g.id === goalId)`. */
  function FindGoal(goals: seq<Goal>, id: string): (r: Option<Goal>)
    ensures r.Some? ==> r.value in goals && r.value.id == id
    ensures r.None? <==> forall g :: g in goals ==> g.id != id
  {
    var k := IndexOfId(goals, id);
    if k < |goals| then Some(goals[k]) else None
  }

  function GoalIdNot(id: string): Goal -> bool {
    (g: Goal) => g.id != id
  }

  function AmountUpdate(id: string, v: real): Goal -> Goal {
    (g: Goal) => if g.id == id then g.(currentAmount := v) else g
  }

  /** The goal list as it reads once the goal `id` holds `v`. */
  function WithAmount(goals: seq<Goal>, id: string, v: real): (r: seq<Goal>)
    ensures |r| == |goals|
    ensures forall k :: 0 <= k < |goals| ==> r[k] == if goals[k].id == id then goals[k].(currentAmount := v) else goals[k]
  {
    Map(goals, AmountUpdate(id, v))
  }

  function UsedUpdate(id: string): Goal -> Goal {
    (g: Goal) => if g.id == id then g.(isUsed := true) else g
  }

  /** The goal list as it reads once the goal `id` is completed. */
  function MarkUsed(goals: seq<Goal>, id: string): (r: seq<Goal>)
    ensures |r| == |goals|
    ensures forall k :: 0 <= k < |goals| ==> r[k] == if goals[k].id == id then goals[k].(isUsed := true) else goals[k]
  {
    Map(goals, UsedUpdate(id))
  }

  /** Marking a goal used twice is marking it once. */
  lemma MarkUsedIdempotent(goals: seq<Goal>, id: string)
    ensures MarkUsed(MarkUsed(goals, id), id) == MarkUsed(goals, id)
  {
  }

  /** A reload after `update({ monto_acumulado: v })` shows that amount on that goal and nothing else changed. */
  lemma LoadAfterSetAccumulated(rows: seq<GoalRow>, owner: string, id: string, v: real)
    ensures LoadGoals(SetAccumulated(rows, id, v), owner) == WithAmount(LoadGoals(rows, owner), id, v)
  {
    var f := AccumulatedSetter(id, v);
    WhereMap(rows, f, GoalOwnedBy(owner), GoalOwnedBy(owner));
    var mine := Where(rows, GoalOwnedBy(owner));
    forall i | 0 <= i < |mine|
      ensures ToGoal(f(mine[i])) == AmountUpdate(id, v)(ToGoal(mine[i]))
    {
      AccumulatedThenLoad(mine[i], id, v);
    }
    MapFusion(mine, f, ToGoal, AmountUpdate(id, v));
  }

  /** Rewriting one row's amount and then loading it is loading it and then setting the amount. */
  lemma AccumulatedThenLoad(r: GoalRow, id: string, v: real)
    ensures ToGoal(AccumulatedSetter(id, v)(r)) == AmountUpdate(id, v)(ToGoal(r))
  {
  }

  /** A reload after `update({ completada: true })` shows that goal used and nothing else changed. */
  lemma LoadAfterSetCompleted(rows: seq<GoalRow>, owner: string, id: string)
    ensures LoadGoals(SetCompleted(rows, id), owner) == MarkUsed(LoadGoals(rows, owner), id)
  {
    var f := CompletedSetter(id);
    WhereMap(rows, f, GoalOwnedBy(owner), GoalOwnedBy(owner));
    var mine := Where(rows, GoalOwnedBy(owner));
    forall i | 0 <= i < |mine|
      ensures ToGoal(f(mine[i])) == UsedUpdate(id)(ToGoal(mine[i]))
    {
      CompletedThenLoad(mine[i], id);
    }
    MapFusion(mine, f, ToGoal, UsedUpdate(id));
  }

  /** Completing one row and then loading it is loading it and then marking it used. */
  lemma CompletedThenLoad(r: GoalRow, id: string)
    ensures ToGoal(CompletedSetter(id)(r)) == UsedUpdate(id)(ToGoal(r))
  {
  }

  /** Removing a goal locally gives what a reload after the store delete would give. */
  lemma DeleteMatchesReload(rows: seq<GoalRow>, owner: string, id: string)
    ensures LoadGoals(Where(rows, GoalIdIsNot(id)), owner) == Where(LoadGoals(rows, owner), GoalIdNot(id))
  {
    WhereCommutes(rows, GoalIdIsNot(id), GoalOwnedBy(owner));
    WhereMap(Where(rows, GoalOwnedBy(owner)), ToGoal, GoalIdIsNot(id), GoalIdNot(id));
  }

  /** A new goal is listed, with nothing saved and not used, after the reload that follows `addGoal`. */
  lemma AddedGoalListed(rows: seq<GoalRow>, owner: string, draft: GoalDraft, id: nat)
    ensures var g := ToGoal(NewGoalRow(owner, draft).(id := id));
      && g in LoadGoals(rows + [NewGoalRow(owner, draft).(id := id)], owner)
      && g.currentAmount == 0.0 && !g.isUsed
  {
    var row := NewGoalRow(owner, draft).(id := id);
    var all := rows + [row];
    assert all[..|all| - 1] == rows;
    var mine := Where(all, GoalOwnedBy(owner));
    assert mine[|mine| - 1] == row;
    assert LoadGoals(all, owner)[|mine| - 1] == ToGoal(row);
  }

  /**
   * The store and the listed goals after one `updateGoalAmount`: the new
   * amount is read from the LISTED goal, written when the update succeeds,
   * and the list is replaced only by a successful reload.
   */
  function AfterContribution(metas: seq<GoalRow>, goals: seq<Goal>, owner: string, goalId: string, amount: real,
                             ok: bool, fetchOk: bool): (seq<GoalRow>, seq<Goal>)
  {
    match FindGoal(goals, goalId)
    case None => (metas, goals)
    case Some(g) =>
      var stored := if ok then SetAccumulated(metas, goalId, g.currentAmount + amount) else metas;
      (stored, if ok && fetchOk then LoadGoals(stored, owner) else goals)
  }

  /**
   * Two contributions `a` then `b` to one goal, starting from a list that
   * matches the store, both writes succeeding; `reloadOk` says whether the
   * reload after the first one succeeded.
   */
  function TwoContributions(metas: seq<GoalRow>, owner: string, goalId: string, a: real, b: real, reloadOk: bool): (seq<GoalRow>, seq<Goal>)
  {
    var first := AfterContribution(metas, LoadGoals(metas, owner), owner, goalId, a, true, reloadOk);
    AfterContribution(first.0, first.1, owner, goalId, b, true, true)
  }

  /** Writing an amount twice leaves the last one. */
  lemma SetAccumulatedTwice(rows: seq<GoalRow>, id: string, v: real, w: real)
    ensures SetAccumulated(SetAccumulated(rows, id, v), id, w) == SetAccumulated(rows, id, w)
  {
  }

  /** Setting an amount moves no goal, so `find` stops at the same place. */
  lemma {:induction false} IndexOfIdWithAmount(goals: seq<Goal>, id: string, v: real)
    ensures IndexOfId(WithAmount(goals, id, v), id) == IndexOfId(goals, id)
  {
    if goals != [] && goals[0].id != id {
      assert WithAmount(goals, id, v)[1..] == WithAmount(goals[1..], id, v);
      IndexOfIdWithAmount(goals[1..], id, v);
    }
  }

  /** After the amount update and a reload, `find` gives the goal it gave before, with the new amount. */
  lemma FindAfterSetAccumulated(metas: seq<GoalRow>, owner: string, id: string, v: real)
    requires FindGoal(LoadGoals(metas, owner), id).Some?
    ensures FindGoal(LoadGoals(SetAccumulated(metas, id, v), owner), id)
      == Some(FindGoal(LoadGoals(metas, owner), id).value.(currentAmount := v))
  {
    var goals := LoadGoals(metas, owner);
    LoadAfterSetAccumulated(metas, owner, id, v);
    IndexOfIdWithAmount(goals, id, v);
  }

  /** For a goal listed with amount `v`, a successful write stores `w = v + amount`. */
  lemma AfterListed(metas: seq<GoalRow>, goals: seq<Goal>, owner: string, goalId: string, amount: real,
                    ok: bool, fetchOk: bool, v: real, w: real)
    requires FindGoal(goals, goalId).Some? && FindGoal(goals, goalId).value.currentAmount == v && w == v + amount
    ensures AfterContribution(metas, goals, owner, goalId, amount, ok, fetchOk).0
      == if ok then SetAccumulated(metas, goalId, w) else metas
    ensures AfterContribution(metas, goals, owner, goalId, amount, ok, fetchOk).1
      == if ok && fetchOk then LoadGoals(SetAccumulated(metas, goalId, w), owner) else goals
  {
  }

  /**
   * One contribution to a goal listed with amount `v`, written and
   * reloaded: the store holds `w = v + amount` for it, and the reloaded
   * list shows the goal with `w`.
   */
  lemma StepWithReload(metas: seq<GoalRow>, owner: string, goalId: string, amount: real, v: real, w: real)
    requires FindGoal(LoadGoals(metas, owner), goalId).Some?
    requires FindGoal(LoadGoals(metas, owner), goalId).value.currentAmount == v && w == v + amount
    ensures var after := AfterContribution(metas, LoadGoals(metas, owner), owner, goalId, amount, true, true);
      && after.0 == SetAccumulated(metas, goalId, w) && after.1 == LoadGoals(after.0, owner)
      && FindGoal(after.1, goalId).Some? && FindGoal(after.1, goalId).value.currentAmount == w
  {
    AfterListed(metas, LoadGoals(metas, owner), owner, goalId, amount, true, true, v, w);
    FindAfterSetAccumulated(metas, owner, goalId, w);
  }

  /** Both contributions land in the store in turn: with a good reload the goal ends at its amount plus both. */
  lemma TwoWithReload(metas: seq<GoalRow>, owner: string, goalId: string, a: real, b: real, c: real, w1: real, w2: real)
    requires FindGoal(LoadGoals(metas, owner), goalId).Some?
    requires FindGoal(LoadGoals(metas, owner), goalId).value.currentAmount == c && w1 == c + a && w2 == w1 + b
    ensures TwoContributions(metas, owner, goalId, a, b, true).0 == SetAccumulated(metas, goalId, w2)
    ensures TwoContributions(metas, owner, goalId, a, b, true).1 == LoadGoals(SetAccumulated(metas, goalId, w2), owner)
  {
    StepWithReload(metas, owner, goalId, a, c, w1);
    var s1 := SetAccumulated(metas, goalId, w1);
    StepWithReload(s1, owner, goalId, b, w1, w2);
    SetAccumulatedTwice(metas, goalId, w1, w2);
  }

  /**
   * With the reload between them succeeding, two contributions to one goal
   * leave the same store and the same list in either order, the store
   * holding `total`, what the goal held plus both.
   */
  lemma ContributionsCommute(metas: seq<GoalRow>, owner: string, goalId: string, a: real, b: real, c: real, total: real)
    requires FindGoal(LoadGoals(metas, owner), goalId).Some?
    requires FindGoal(LoadGoals(metas, owner), goalId).value.currentAmount == c && total == c + a + b
    ensures TwoContributions(metas, owner, goalId, a, b, true).0 == TwoContributions(metas, owner, goalId, b, a, true).0
    ensures TwoContributions(metas, owner, goalId, a, b, true).1 == TwoContributions(metas, owner, goalId, b, a, true).1
    ensures TwoContributions(metas, owner, goalId, a, b, true).0 == SetAccumulated(metas, goalId, total)
  {
    TwoWithReload(metas, owner, goalId, a, b, c, c + a, total);
    TwoWithReload(metas, owner, goalId, b, a, c, c + b, total);
  }

  /** Two different amounts written for a listed goal give two different tables. */
  lemma SetAccumulatedDiffers(metas: seq<GoalRow>, owner: string, goalId: string, v: real, w: real)
    requires FindGoal(LoadGoals(metas, owner), goalId).Some? && v != w
    ensures SetAccumulated(metas, goalId, v) != SetAccumulated(metas, goalId, w)
  {
    var j := GoalRowOf(metas, owner, goalId);
    assert SetAccumulated(metas, goalId, v)[j].montoAcumulado == v;
    assert SetAccumulated(metas, goalId, w)[j].montoAcumulado == w;
  }

  /**
   * When the reload after the first contribution fails, the second one is
   * computed from the stale listed amount `c` and overwrites the first:
   * the store ends with `lost = c + b`, which differs from what a good
   * reload leads to whenever `a` is not 0.
   */
  lemma ContributionLostWithoutReload(metas: seq<GoalRow>, owner: string, goalId: string, a: real, b: real, c: real, lost: real)
    requires FindGoal(LoadGoals(metas, owner), goalId).Some?
    requires FindGoal(LoadGoals(metas, owner), goalId).value.currentAmount == c && lost == c + b
    ensures TwoContributions(metas, owner, goalId, a, b, false).0 == SetAccumulated(metas, goalId, lost)
    ensures a != 0.0 ==> TwoContributions(metas, owner, goalId, a, b, false).0 != TwoContributions(metas, owner, goalId, a, b, true).0
  {
    var goals := LoadGoals(metas, owner);
    var first := c + a;
    AfterListed(metas, goals, owner, goalId, a, true, false, c, first);
    AfterListed(SetAccumulated(metas, goalId, first), goals, owner, goalId, b, true, true, c, lost);
    SetAccumulatedTwice(metas, goalId, first, lost);
    var both := c + a + b;
    TwoWithReload(metas, owner, goalId, a, b, c, first, both);
    if a != 0.0 {
      SetAccumulatedDiffers(metas, owner, goalId, lost, both);
    }
  }

  /** A goal listed for the owner comes from a row of the table with that id. */
  lemma GoalRowOf(metas: seq<GoalRow>, owner: string, goalId: string) returns (j: nat)
    requires FindGoal(LoadGoals(metas, owner), goalId).Some?
    ensures j < |metas| && ShowNat(metas[j].id) == goalId
  {
    var mine := Where(metas, GoalOwnedBy(owner));
    var g := FindGoal(LoadGoals(metas, owner), goalId).value;
    var k :| 0 <= k < |mine| && ToGoal(mine[k]) == g;
    assert mine[k] in metas;
    j :| 0 <= j < |metas| && metas[j] == mine[k];
  }

  class GoalsState {
    const db: Database
    const usuarioId: string
    var goals: seq<Goal>
    var loading: bool

    ghost predicate Valid()
      reads this, db
    {
      db.Valid()
    }

    constructor (db: Database, usuarioId: string)
      requires db.Valid()
      ensures Valid()
      ensures this.db == db && this.usuarioId == usuarioId
      ensures goals == [] && loading
    {
      this.db := db;
      this.usuarioId := usuarioId;
      goals := [];
      loading := true;
    }

    /** `fetchGoals`: on success the state is the owner's goals; on error it is kept. */
    method FetchGoals(ok: bool)
      modifies this`goals, this`loading
      ensures !loading
      ensures goals == if ok then LoadGoals(db.metas, usuarioId) else old(goals)
    {
      loading := true;
      if ok {
        goals := LoadGoals(db.metas, usuarioId);
      }
      loading := false;
    }

    /** `addGoal`: insert with nothing saved and not completed, then reload. */
    method AddGoal(draft: GoalDraft, insertOk: bool, fetchOk: bool)
      requires Valid()
      modifies this`goals, this`loading, db`metas, db`nextId
      ensures Valid()
      ensures db.metas == if insertOk then old(db.metas) + [NewGoalRow(usuarioId, draft).(id := old(db.nextId))] else old(db.metas)
      ensures insertOk ==> !loading && goals == (if fetchOk then LoadGoals(db.metas, usuarioId) else old(goals))
      ensures !insertOk ==> goals == old(goals) && loading == old(loading)
    {
      db.InsertGoal(NewGoalRow(usuarioId, draft), insertOk);
      if insertOk {
        FetchGoals(fetchOk);
      }
    }

    /** `deleteGoal`: on success drop the goal locally, which keeps the list equal to a reload. */
    method DeleteGoal(id: string, ok: bool)
      requires Valid()
      modifies this`goals, db`metas
      ensures Valid()
      ensures db.metas == if ok then Where(old(db.metas), GoalIdIsNot(id)) else old(db.metas)
      ensures goals == if ok then Where(old(goals), GoalIdNot(id)) else old(goals)
      ensures old(goals) == LoadGoals(old(db.metas), usuarioId) ==> goals == LoadGoals(db.metas, usuarioId)
    {
      DeleteMatchesReload(db.metas, usuarioId, id);
      db.DeleteGoals(id, ok);
      if ok {
        goals := Where(goals, GoalIdNot(id));
      }
    }

    /** `quickPayment`: mark the goal completed, then reload. */
    method QuickPayment(id: string, ok: bool, fetchOk: bool)
      requires Valid()
      modifies this`goals, this`loading, db`metas
      ensures Valid()
      ensures db.metas == if ok then SetCompleted(old(db.metas), id) else old(db.metas)
      ensures ok ==> !loading && goals == (if fetchOk then LoadGoals(db.metas, usuarioId) else old(goals))
      ensures ok && fetchOk && old(goals) == LoadGoals(old(db.metas), usuarioId) ==> goals == MarkUsed(old(goals), id)
      ensures !ok ==> goals == old(goals) && loading == old(loading)
    {
      LoadAfterSetCompleted(db.metas, usuarioId, id);
      db.UpdateGoalCompleted(id, ok);
      if ok {
        FetchGoals(fetchOk);
      }
    }

    /**
     * `updateGoalAmount`: the new amount is the LOCAL copy's amount plus
     * `amount`; an id missing from local state changes nothing.
     */
    method UpdateGoalAmount(goalId: string, amount: real, ok: bool, fetchOk: bool)
      requires Valid()
      modifies this`goals, this`loading, db`metas
      ensures Valid()
      ensures FindGoal(old(goals), goalId).None? ==> db.metas == old(db.metas) && goals == old(goals) && loading == old(loading)
      ensures FindGoal(old(goals), goalId).Some? ==>
        var v := FindGoal(old(goals), goalId).value.currentAmount + amount;
        && db.metas == (if ok then SetAccumulated(old(db.metas), goalId, v) else old(db.metas))
        && (ok && fetchOk ==> goals == WithAmount(LoadGoals(old(db.metas), usuarioId), goalId, v))
      ensures !ok ==> goals == old(goals) && loading == old(loading)
      ensures db.metas == AfterContribution(old(db.metas), old(goals), usuarioId, goalId, amount, ok, fetchOk).0
      ensures goals == AfterContribution(old(db.metas), old(goals), usuarioId, goalId, amount, ok, fetchOk).1
    {
      var goal := FindGoal(goals, goalId);
      if goal.None? {
        return;
      }
      var newAmount := goal.value.currentAmount + amount;
      AfterListed(db.metas, goals, usuarioId, goalId, amount, ok, fetchOk, goal.value.currentAmount, newAmount);
      LoadAfterSetAccumulated(db.metas, usuarioId, goalId, newAmount);
      StoreAmount(goalId, newAmount, ok, fetchOk);
    }

    /** The store update of `updateGoalAmount` and the reload that follows it. */
    method StoreAmount(goalId: string, newAmount: real, ok: bool, fetchOk: bool)
      requires Valid()
      modifies this`goals, this`loading, db`metas
      ensures Valid()
      ensures db.metas == if ok then SetAccumulated(old(db.metas), goalId, newAmount) else old(db.metas)
      ensures ok ==> !loading && goals == (if fetchOk then LoadGoals(db.metas, usuarioId) else old(goals))
      ensures !ok ==> goals == old(goals) && loading == old(loading)
    {
      db.UpdateGoalAccumulated(goalId, newAmount, ok);
      if ok {
        FetchGoals(fetchOk);
      }
    }

    /** `useGoalSavings`: the same store update as `quickPayment`. */
    method UseGoalSavings(goalId: string, ok: bool, fetchOk: bool)
      requires Valid()
      modifies this`goals, this`loading, db`metas
      ensures Valid()
      ensures db.metas == if ok then SetCompleted(old(db.metas), goalId) else old(db.metas)
      ensures ok ==> !loading && goals == (if fetchOk then LoadGoals(db.metas, usuarioId) else old(goals))
      ensures ok && fetchOk && old(goals) == LoadGoals(old(db.metas), usuarioId) ==> goals == MarkUsed(old(goals), goalId)
      ensures !ok ==> goals == old(goals) && loading == old(loading)
    {
      QuickPayment(goalId, ok, fetchOk);
    }
  }
}
