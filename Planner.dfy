/**
 * The weekly planner grid of app/main.py (`plan_data`): one entry per day
 * of the week, each starting with the three slots "Matin", "Midi" and
 * "Soir" empty; then every meal plan of the week writes its recipe into the
 * slot of its date and meal type, so a later plan overwrites an earlier one
 * and a meal type outside the three adds a slot of its own.
 */
module Planner {
  import opened Text
  import opened Calendar
  import opened Models
  import opened Crud

  /** The meal slots every day starts with. */
  const Slots: seq<string> := ["Matin", "Midi", "Soir"]

  /** One day of the grid: meal type to the recipe planned there, if any. */
  type DaySlots = map<string, Option<Recipe>>

  /** `{"Matin": None, "Midi": None, "Soir": None}`. */
  function EmptyDay(): (m: DaySlots)
    ensures forall t :: t in m <==> t in Slots
    ensures forall t :: t in m ==> m[t].None?
  {
    map["Matin" := None, "Midi" := None, "Soir" := None]
  }

  /** The last plan of `plans` for the slot `(d, t)`, if any. */
  function LastPlanFor(plans: seq<MealPlan>, d: Date, t: string): (r: Option<MealPlan>)
    ensures r.None? <==> forall p :: p in plans ==> !(p.date == d && p.mealType == t)
    ensures r.Some? ==> r.value in plans && r.value.date == d && r.value.mealType == t
  {
    if plans == [] then None
    else
      var p := plans[|plans| - 1];
      if p.date == d && p.mealType == t then Some(p)
      else
        assert forall q :: q in plans ==> q in plans[..|plans| - 1] || q == p;
        LastPlanFor(plans[..|plans| - 1], d, t)
  }

  /** What the grid shows in slot `(d, t)` after `plans`: the recipe of the last plan there. */
  function SlotValue(recipes: seq<Recipe>, plans: seq<MealPlan>, d: Date, t: string): (r: Option<Recipe>)
    ensures (forall p :: p in plans ==> !(p.date == d && p.mealType == t)) ==> r.None?
    ensures r.Some? ==> r.value in recipes
    ensures r.Some? ==> exists p :: p in plans && p.date == d && p.mealType == t && p.recipeId == Some(r.value.id)
  {
    match LastPlanFor(plans, d, t)
    case None => None
    case Some(p) => PlanRecipe(recipes, p)
  }

  /** One more plan is the last one for its own slot and changes no other slot's last plan. */
  lemma LastPlanForSnoc(plans: seq<MealPlan>, q: MealPlan, d: Date, t: string)
    ensures LastPlanFor(plans + [q], d, t)
      == if q.date == d && q.mealType == t then Some(q) else LastPlanFor(plans, d, t)
  {
    assert (plans + [q])[..|plans|] == plans;
  }

  /** `grid` is the planner for `days` after writing the slots of `plans`. */
  ghost predicate GridShows(grid: map<Date, DaySlots>, days: seq<Date>, recipes: seq<Recipe>, plans: seq<MealPlan>) {
    && (forall d :: d in grid <==> d in days)
    && (forall d, t :: d in days ==> (t in grid[d] <==> t in Slots || LastPlanFor(plans, d, t).Some?))
    && (forall d, t :: d in days && t in grid[d] ==> grid[d][t] == SlotValue(recipes, plans, d, t))
  }

  /** `plan_data[p.date][p.meal_type] = p.recipe` extends the grid by the plan `p`. */
  lemma WriteSlot(grid: map<Date, DaySlots>, days: seq<Date>, recipes: seq<Recipe>, plans: seq<MealPlan>, p: MealPlan)
    requires GridShows(grid, days, recipes, plans)
    requires p.date in days
    ensures GridShows(grid[p.date := grid[p.date][p.mealType := PlanRecipe(recipes, p)]], days, recipes, plans + [p])
  {
    var grid' := grid[p.date := grid[p.date][p.mealType := PlanRecipe(recipes, p)]];
    var plans' := plans + [p];
    forall d, t | d in days
      ensures t in grid'[d] <==> t in Slots || LastPlanFor(plans', d, t).Some?
      ensures t in grid'[d] ==> grid'[d][t] == SlotValue(recipes, plans', d, t)
    {
      LastPlanForSnoc(plans, p, d, t);
      if d != p.date {
        assert grid'[d] == grid[d];
      } else if t != p.mealType {
        assert t in grid'[d] <==> t in grid[d];
      }
    }
  }

  /**
   * `plan_data`: the seven days with empty slots, then each plan's recipe
   * written into its slot, in the order of `plans`.
   */
  method BuildPlanGrid(days: seq<Date>, plans: seq<MealPlan>, recipes: seq<Recipe>)
    returns (grid: map<Date, DaySlots>)
    requires forall p :: p in plans ==> p.date in days
    ensures GridShows(grid, days, recipes, plans)
  {
    grid := map d | d in days :: EmptyDay();
    for k := 0 to |plans|
      invariant GridShows(grid, days, recipes, plans[..k])
    {
      var p := plans[k];
      assert p in plans;
      WriteSlot(grid, days, recipes, plans[..k], p);
      TakeOneMore(plans, k);
      grid := grid[p.date := grid[p.date][p.mealType := PlanRecipe(recipes, p)]];
    }
    TakeAll(plans);
  }

  // ---------------------------------------------------------------------
  // Properties of the grid

  /** A slot no plan names stays empty; one of the three standard slots is always present. */
  lemma UnplannedSlotIsEmpty(recipes: seq<Recipe>, plans: seq<MealPlan>, d: Date, t: string)
    requires forall p :: p in plans ==> !(p.date == d && p.mealType == t)
    ensures SlotValue(recipes, plans, d, t).None?
  {
  }

  /** The plan at index `i` is the last word on its slot when no later plan names that slot. */
  lemma {:induction false} LastPlanWins(plans: seq<MealPlan>, i: int)
    requires 0 <= i < |plans|
    requires forall j :: i < j < |plans| ==> !SameSlot(plans[j], plans[i])
    ensures LastPlanFor(plans, plans[i].date, plans[i].mealType) == Some(plans[i])
  {
    if i < |plans| - 1 {
      var prefix := plans[..|plans| - 1];
      assert !SameSlot(plans[|plans| - 1], plans[i]);
      assert prefix[i] == plans[i];
      LastPlanWins(prefix, i);
    }
  }

  /**
   * One more plan overwrites exactly its own slot: that slot now shows its
   * recipe, every other slot shows what it showed before.
   */
  lemma OverwriteOneSlot(recipes: seq<Recipe>, plans: seq<MealPlan>, q: MealPlan, d: Date, t: string)
    ensures SlotValue(recipes, plans + [q], d, t)
      == if q.date == d && q.mealType == t then PlanRecipe(recipes, q) else SlotValue(recipes, plans, d, t)
  {
    LastPlanForSnoc(plans, q, d, t);
  }

  /** With at most one plan per slot, as the store keeps it, every slot shows its own plan's recipe. */
  lemma UniquePlanShown(recipes: seq<Recipe>, plans: seq<MealPlan>, p: MealPlan)
    requires OnePlanPerSlot(plans)
    requires p in plans
    ensures SlotValue(recipes, plans, p.date, p.mealType) == PlanRecipe(recipes, p)
  {
    var i :| 0 <= i < |plans| && plans[i] == p;
    forall j | i < j < |plans| ensures !SameSlot(plans[j], plans[i]) {
    }
    LastPlanWins(plans, i);
  }

  /** The plans the week query returns all fall on one of the seven days, so filling the grid never misses a day. */
  lemma WeekPlansFitGrid(today: Date, plans: seq<MealPlan>)
    requires WeekDays(today).Some?
    requires forall p :: p in plans ==> WeekDays(today).value[0] <= p.date <= WeekDays(today).value[6]
    ensures forall p :: p in plans ==> p.date in WeekDays(today).value
  {
    var days := WeekDays(today).value;
    forall p | p in plans ensures p.date in days {
      var i := p.date - days[0];
      assert days[i] == p.date;
    }
  }
}
