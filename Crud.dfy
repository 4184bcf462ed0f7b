/**
 * The record operations of app/crud.py over an in-memory store: three
 * tables kept in insertion order and one id counter per table standing for
 * the database's key generation. Reads are functions of the tables; the
 * writes are methods of the `Store` class.
 */
module Crud {
  import opened Text
  import opened Calendar
  import opened Models

  /** `limit` when `get_recipes` is called without one. */
  const DefaultLimit: nat := 100

  /** `p` and `q` fill the same planner slot. */
  predicate SameSlot(p: MealPlan, q: MealPlan) {
    p.date == q.date && p.mealType == q.mealType
  }

  /** At most one meal plan per `(date, meal_type)`. */
  predicate OnePlanPerSlot(plans: seq<MealPlan>) {
    forall i, j :: 0 <= i < j < |plans| ==> !SameSlot(plans[i], plans[j])
  }

  /** Strictly increasing ids: each id is used once and later rows have larger ids. */
  predicate IncreasingRecipeIds(recipes: seq<Recipe>) {
    forall i, j :: 0 <= i < j < |recipes| ==> recipes[i].id < recipes[j].id
  }

  /** `filter(MealPlan.date >= start, MealPlan.date <= end)`, in table order. */
  function PlansBetween(plans: seq<MealPlan>, start: Date, end: Date): (r: seq<MealPlan>)
    ensures |r| <= |plans|
    ensures forall p :: p in r <==> p in plans && start <= p.date <= end
    ensures end < start ==> r == []
  {
    if plans == [] then []
    else
      var rest := PlansBetween(plans[1..], start, end);
      assert forall p :: p in plans ==> p == plans[0] || p in plans[1..];
      if start <= plans[0].date <= end then [plans[0]] + rest else rest
  }

  /** The plans outside the slot `(date, mealType)`: what the bulk `delete()` leaves. */
  function PlansOutsideSlot(plans: seq<MealPlan>, date: Date, mealType: string): (r: seq<MealPlan>)
    ensures |r| <= |plans|
    ensures forall p :: p in r <==> p in plans && !(p.date == date && p.mealType == mealType)
  {
    if plans == [] then []
    else
      var rest := PlansOutsideSlot(plans[1..], date, mealType);
      assert forall p :: p in plans ==> p == plans[0] || p in plans[1..];
      if plans[0].date == date && plans[0].mealType == mealType then rest else [plans[0]] + rest
  }

  lemma ConsOnePlanPerSlot(p: MealPlan, rest: seq<MealPlan>)
    requires OnePlanPerSlot(rest)
    requires forall q :: q in rest ==> !SameSlot(p, q)
    ensures OnePlanPerSlot([p] + rest)
  {
    var ps := [p] + rest;
    forall i, j | 0 <= i < j < |ps| ensures !SameSlot(ps[i], ps[j]) {
      assert ps[j] == rest[j - 1];
      if i == 0 {
        assert rest[j - 1] in rest;
      } else {
        assert ps[i] == rest[i - 1];
      }
    }
  }

  /** Dropping the plans of one slot keeps the other plans one per slot. */
  lemma {:induction false} PlansOutsideSlotKeepsOnePerSlot(plans: seq<MealPlan>, date: Date, mealType: string)
    requires OnePlanPerSlot(plans)
    ensures OnePlanPerSlot(PlansOutsideSlot(plans, date, mealType))
  {
    if plans != [] {
      var tail := plans[1..];
      assert OnePlanPerSlot(tail);
      PlansOutsideSlotKeepsOnePerSlot(tail, date, mealType);
      var rest := PlansOutsideSlot(tail, date, mealType);
      if !(plans[0].date == date && plans[0].mealType == mealType) {
        forall q | q in rest ensures !SameSlot(plans[0], q) {
          var j :| 0 <= j < |tail| && tail[j] == q;
          assert plans[j + 1] == q;
        }
        ConsOnePlanPerSlot(plans[0], rest);
      }
    }
  }

  /** The recipes other than `id`. */
  function RecipesWithout(recipes: seq<Recipe>, id: int): (r: seq<Recipe>)
    ensures |r| <= |recipes|
    ensures forall x :: x in r <==> x in recipes && x.id != id
  {
    if recipes == [] then []
    else
      var rest := RecipesWithout(recipes[1..], id);
      assert forall x :: x in recipes ==> x == recipes[0] || x in recipes[1..];
      if recipes[0].id == id then rest else [recipes[0]] + rest
  }

  lemma ConsIncreasingRecipeIds(r: Recipe, rest: seq<Recipe>)
    requires IncreasingRecipeIds(rest)
    requires forall x :: x in rest ==> r.id < x.id
    ensures IncreasingRecipeIds([r] + rest)
  {
    var rs := [r] + rest;
    forall i, j | 0 <= i < j < |rs| ensures rs[i].id < rs[j].id {
      assert rs[j] == rest[j - 1];
      if i == 0 {
        assert rest[j - 1] in rest;
      } else {
        assert rs[i] == rest[i - 1];
      }
    }
  }

  /** Removing one recipe keeps the remaining ids increasing. */
  lemma {:induction false} RecipesWithoutKeepsIncreasing(recipes: seq<Recipe>, id: int)
    requires IncreasingRecipeIds(recipes)
    ensures IncreasingRecipeIds(RecipesWithout(recipes, id))
  {
    if recipes != [] {
      var tail := recipes[1..];
      assert IncreasingRecipeIds(tail);
      RecipesWithoutKeepsIncreasing(tail, id);
      var rest := RecipesWithout(tail, id);
      if recipes[0].id != id {
        forall x | x in rest ensures recipes[0].id < x.id {
          var j :| 0 <= j < |tail| && tail[j] == x;
          assert recipes[j + 1] == x;
        }
        ConsIncreasingRecipeIds(recipes[0], rest);
      }
    }
  }

  /** The ingredients not owned by recipe `id`: what the delete-orphan cascade leaves. */
  function IngredientsWithout(ingredients: seq<Ingredient>, id: int): (r: seq<Ingredient>)
    ensures |r| <= |ingredients|
    ensures forall x :: x in r <==> x in ingredients && x.recipeId != id
  {
    if ingredients == [] then []
    else
      var rest := IngredientsWithout(ingredients[1..], id);
      assert forall x :: x in ingredients ==> x == ingredients[0] || x in ingredients[1..];
      if ingredients[0].recipeId == id then rest else [ingredients[0]] + rest
  }

  /** A plan after recipe `id` is deleted: its foreign key is set to null if it named `id`. */
  function Detach(p: MealPlan, id: int): MealPlan {
    if p.recipeId == Some(id) then p.(recipeId := None) else p
  }

  /** Every plan after recipe `id` is deleted, in table order. */
  function DetachAll(plans: seq<MealPlan>, id: int): (r: seq<MealPlan>)
    ensures |r| == |plans|
    ensures forall i :: 0 <= i < |r| ==> r[i] == Detach(plans[i], id)
  {
    seq(|plans|, i requires 0 <= i < |plans| => Detach(plans[i], id))
  }

  /** Nulling recipe keys keeps plan ids and slots, hence one plan per slot. */
  lemma DetachAllKeepsSlots(plans: seq<MealPlan>, id: int, np: int)
    requires forall p :: p in plans ==> 1 <= p.id < np
    requires OnePlanPerSlot(plans)
    ensures forall p :: p in DetachAll(plans, id) ==> 1 <= p.id < np
    ensures OnePlanPerSlot(DetachAll(plans, id))
  {
    var ps := DetachAll(plans, id);
    forall p | p in ps ensures 1 <= p.id < np {
      var i :| 0 <= i < |ps| && ps[i] == p;
      assert plans[i] in plans;
    }
    forall i, j | 0 <= i < j < |ps| ensures !SameSlot(ps[i], ps[j]) {
      assert SameSlot(ps[i], plans[i]) && SameSlot(ps[j], plans[j]);
    }
  }

  /** `[id, id + 1, ...]`-numbered ingredient rows owned by `recipeId`, one per requested ingredient. */
  function NewIngredients(items: seq<IngredientCreate>, recipeId: int, firstId: int): seq<Ingredient> {
    seq(|items|, k requires 0 <= k < |items| => Ingredient(firstId + k, items[k].name, items[k].quantity, recipeId))
  }

  /** Replacing the slot of `plan` keeps one plan per slot, and `plan` is the slot's only plan. */
  lemma UpsertKeepsOnePlanPerSlot(plans: seq<MealPlan>, plan: MealPlan)
    requires OnePlanPerSlot(plans)
    ensures var r := PlansOutsideSlot(plans, plan.date, plan.mealType) + [plan];
      && OnePlanPerSlot(r)
      && (forall p :: p in r && SameSlot(p, plan) ==> p == plan)
      && (forall p :: p in plans && !SameSlot(p, plan) ==> p in r)
      && (forall p :: p in r ==> p == plan || p in plans)
  {
    var rest := PlansOutsideSlot(plans, plan.date, plan.mealType);
    var r := rest + [plan];
    PlansOutsideSlotKeepsOnePerSlot(plans, plan.date, plan.mealType);
    forall i, j | 0 <= i < j < |r| ensures !SameSlot(r[i], r[j]) {
      if j == |r| - 1 {
        assert r[i] in rest;
      } else {
        assert r[i] == rest[i] && r[j] == rest[j];
      }
    }
  }

  /**
   * Ids are positive and below their table's counter, recipe ids increase
   * along the table, every ingredient belongs to a stored recipe, and no two
   * meal plans share a slot.
   */
  predicate Consistent(recipes: seq<Recipe>, ingredients: seq<Ingredient>, mealPlans: seq<MealPlan>,
                       nextRecipeId: int, nextIngredientId: int, nextMealPlanId: int)
  {
    && 1 <= nextRecipeId && 1 <= nextIngredientId && 1 <= nextMealPlanId
    && (forall x :: x in recipes ==> 1 <= x.id < nextRecipeId)
    && IncreasingRecipeIds(recipes)
    && (forall x :: x in ingredients ==> 1 <= x.id < nextIngredientId)
    && (forall x :: x in ingredients ==> FindRecipe(recipes, x.recipeId).Some?)
    && (forall p :: p in mealPlans ==> 1 <= p.id < nextMealPlanId)
    && OnePlanPerSlot(mealPlans)
  }

  /** Adding a recipe under the next id keeps the store consistent. */
  lemma AddRecipeConsistent(recipes: seq<Recipe>, ingredients: seq<Ingredient>, mealPlans: seq<MealPlan>,
                            nr: int, ni: int, np: int, r: Recipe)
    requires Consistent(recipes, ingredients, mealPlans, nr, ni, np)
    requires r.id == nr
    ensures Consistent(recipes + [r], ingredients, mealPlans, nr + 1, ni, np)
    ensures FindRecipe(recipes, r.id).None?
    ensures FindRecipe(recipes + [r], r.id) == Some(r)
  {
    var rs := recipes + [r];
    forall x | x in ingredients ensures FindRecipe(rs, x.recipeId).Some? {
      assert FindRecipe(recipes, x.recipeId).value in rs;
    }
    FindInAppended(recipes, r);
  }

  lemma {:induction false} FindInAppended(recipes: seq<Recipe>, r: Recipe)
    requires forall x :: x in recipes ==> x.id != r.id
    ensures FindRecipe(recipes + [r], r.id) == Some(r)
  {
    if recipes == [] {
      assert recipes + [r] == [r];
    } else {
      FindInAppended(recipes[1..], r);
      assert (recipes + [r])[1..] == recipes[1..] + [r];
    }
  }

  /** Adding ingredient rows of a stored recipe under the next ids keeps the store consistent. */
  lemma AddIngredientsConsistent(recipes: seq<Recipe>, ingredients: seq<Ingredient>, mealPlans: seq<MealPlan>,
                                 nr: int, ni: int, np: int, items: seq<IngredientCreate>, recipeId: int)
    requires Consistent(recipes, ingredients, mealPlans, nr, ni, np)
    requires FindRecipe(recipes, recipeId).Some?
    ensures Consistent(recipes, ingredients + NewIngredients(items, recipeId, ni), mealPlans, nr, ni + |items|, np)
  {
    var added := NewIngredients(items, recipeId, ni);
    assert forall x :: x in added ==> ni <= x.id < ni + |items| && x.recipeId == recipeId;
  }

  /** Storing recipe `r` under the next id, then its ingredient rows, keeps the store consistent. */
  lemma CreateRecipeConsistent(recipes: seq<Recipe>, ingredients: seq<Ingredient>, mealPlans: seq<MealPlan>,
                               nr: int, ni: int, np: int, r: Recipe, items: seq<IngredientCreate>)
    requires Consistent(recipes, ingredients, mealPlans, nr, ni, np)
    requires r.id == nr
    ensures Consistent(recipes + [r], ingredients + NewIngredients(items, r.id, ni), mealPlans, nr + 1, ni + |items|, np)
    ensures FindRecipe(recipes, r.id).None?
    ensures IngredientsOf(ingredients + NewIngredients(items, r.id, ni), r.id) == NewIngredients(items, r.id, ni)
  {
    AddRecipeConsistent(recipes, ingredients, mealPlans, nr, ni, np, r);
    AddIngredientsConsistent(recipes + [r], ingredients, mealPlans, nr + 1, ni, np, items, r.id);
    OwnIngredients(ingredients, NewIngredients(items, r.id, ni), r.id);
  }

  class Store {
    var recipes: seq<Recipe>
    var ingredients: seq<Ingredient>
    var mealPlans: seq<MealPlan>
    var nextRecipeId: int
    var nextIngredientId: int
    var nextMealPlanId: int

    /** The tables satisfy `Consistent`. */
    ghost predicate Valid()
      reads this
    {
      Consistent(recipes, ingredients, mealPlans, nextRecipeId, nextIngredientId, nextMealPlanId)
    }

    constructor ()
      ensures Valid()
      ensures recipes == [] && ingredients == [] && mealPlans == []
    {
      recipes, ingredients, mealPlans := [], [], [];
      nextRecipeId, nextIngredientId, nextMealPlanId := 1, 1, 1;
    }

    /** `get_recipes`: the recipes at positions `skip` to `skip + limit - 1`, as far as they exist. */
    function GetRecipes(skip: nat, limit: nat): (r: seq<Recipe>)
      reads this
      ensures |r| <= limit
      ensures |r| == if skip >= |recipes| then 0 else if limit < |recipes| - skip then limit else |recipes| - skip
      ensures forall i :: 0 <= i < |r| ==> r[i] == recipes[skip + i]
    {
      if skip >= |recipes| then []
      else if skip + limit < |recipes| then recipes[skip..skip + limit]
      else recipes[skip..]
    }

    /** `get_meal_plans`: exactly the stored plans dated from `start` to `end`, both included. */
    function GetMealPlans(start: Date, end: Date): (r: seq<MealPlan>)
      reads this
      ensures forall p :: p in r <==> p in mealPlans && start <= p.date <= end
      ensures end < start ==> r == []
    {
      PlansBetween(mealPlans, start, end)
    }

    /** `get_weekly_summary`: the same query as `get_meal_plans`. */
    function GetWeeklySummary(start: Date, end: Date): (r: seq<MealPlan>)
      reads this
      ensures r == GetMealPlans(start, end)
    {
      PlansBetween(mealPlans, start, end)
    }

    /**
     * `create_recipe`: stores the recipe under a fresh id, then one ingredient
     * per requested ingredient, each under a fresh id and owned by the recipe.
     */
    method CreateRecipe(data: RecipeCreate) returns (r: Recipe)
      requires Valid()
      modifies this
      ensures Valid()
      ensures r == Recipe(old(nextRecipeId), data.title, data.instructions, data.totalTime, data.category)
      ensures FindRecipe(old(recipes), r.id).None?
      ensures recipes == old(recipes) + [r]
      ensures ingredients == old(ingredients) + NewIngredients(data.ingredients, r.id, old(nextIngredientId))
      ensures IngredientsOf(ingredients, r.id) == NewIngredients(data.ingredients, r.id, old(nextIngredientId))
      ensures mealPlans == old(mealPlans)
    {
      r := Recipe(nextRecipeId, data.title, data.instructions, data.totalTime, data.category);
      // The ingredient rows are added to the session one by one and stored by
      // the commit that follows the loop.
      var added: seq<Ingredient> := [];
      var nextId := nextIngredientId;
      for i := 0 to |data.ingredients|
        invariant nextId == nextIngredientId + i
        invariant added == NewIngredients(data.ingredients[..i], r.id, nextIngredientId)
      {
        var ing := data.ingredients[i];
        added := added + [Ingredient(nextId, ing.name, ing.quantity, r.id)];
        nextId := nextId + 1;
        assert data.ingredients[..i + 1] == data.ingredients[..i] + [ing];
      }
      assert data.ingredients[..|data.ingredients|] == data.ingredients;
      CreateRecipeConsistent(recipes, ingredients, mealPlans, nextRecipeId, nextIngredientId, nextMealPlanId, r, data.ingredients);
      recipes, ingredients := recipes + [r], ingredients + added;
      nextRecipeId, nextIngredientId := nextRecipeId + 1, nextId;
    }

    /**
     * `delete_recipe`: when the id is stored, removes the recipe, its
     * ingredients (delete-orphan cascade) and nulls the recipe key of the meal
     * plans that named it; otherwise changes nothing. Returns what was found.
     */
    method DeleteRecipe(id: int) returns (deleted: Option<Recipe>)
      requires Valid()
      modifies this
      ensures Valid()
      ensures deleted == FindRecipe(old(recipes), id)
      ensures deleted.None? ==> recipes == old(recipes) && ingredients == old(ingredients) && mealPlans == old(mealPlans)
      ensures deleted.Some? ==> recipes == RecipesWithout(old(recipes), id)
      ensures deleted.Some? ==> forall x :: x in recipes <==> x in old(recipes) && x.id != id
      ensures deleted.Some? ==> ingredients == IngredientsWithout(old(ingredients), id)
      ensures deleted.Some? ==> forall x :: x in ingredients <==> x in old(ingredients) && x.recipeId != id
      ensures deleted.Some? ==> mealPlans == DetachAll(old(mealPlans), id)
      ensures nextRecipeId == old(nextRecipeId) && nextIngredientId == old(nextIngredientId)
      ensures nextMealPlanId == old(nextMealPlanId)
    {
      deleted := FindRecipe(recipes, id);
      if deleted.Some? {
        recipes := RecipesWithout(recipes, id);
        ingredients := IngredientsWithout(ingredients, id);
        DeleteConsistent(old(recipes), old(ingredients), mealPlans, nextRecipeId, nextIngredientId, nextMealPlanId, id);
        mealPlans := DetachAll(mealPlans, id);
      }
    }

    /**
     * `create_meal_plan`: deletes the plans of slot `(date, mealType)`, then
     * adds the new plan under a fresh id. A taken slot is silently replaced.
     */
    method CreateMealPlan(date: Date, mealType: string, recipeId: int) returns (plan: MealPlan)
      requires Valid()
      modifies this
      ensures Valid()
      ensures plan == MealPlan(old(nextMealPlanId), date, mealType, Some(recipeId))
      ensures mealPlans == PlansOutsideSlot(old(mealPlans), date, mealType) + [plan]
      ensures forall p :: p in mealPlans && SameSlot(p, plan) ==> p == plan
      ensures forall p :: p in old(mealPlans) && !SameSlot(p, plan) ==> p in mealPlans
      ensures recipes == old(recipes) && ingredients == old(ingredients)
    {
      var kept := PlansOutsideSlot(mealPlans, date, mealType);
      plan := MealPlan(nextMealPlanId, date, mealType, Some(recipeId));
      UpsertKeepsOnePlanPerSlot(mealPlans, plan);
      mealPlans := kept + [plan];
      nextMealPlanId := nextMealPlanId + 1;
    }
  }

  /** Removing recipe `id`, its ingredients and the plans' references to it keeps the store consistent. */
  lemma DeleteConsistent(recipes: seq<Recipe>, ingredients: seq<Ingredient>, mealPlans: seq<MealPlan>,
                         nr: int, ni: int, np: int, id: int)
    requires Consistent(recipes, ingredients, mealPlans, nr, ni, np)
    ensures Consistent(RecipesWithout(recipes, id), IngredientsWithout(ingredients, id), DetachAll(mealPlans, id), nr, ni, np)
  {
    var rs := RecipesWithout(recipes, id);
    RecipesWithoutKeepsIncreasing(recipes, id);
    forall x | x in IngredientsWithout(ingredients, id) ensures FindRecipe(rs, x.recipeId).Some? {
      assert FindRecipe(recipes, x.recipeId).value in rs;
    }
    DetachAllKeepsSlots(mealPlans, id, np);
  }

  /** The fresh recipe owns exactly its new ingredients: no older ingredient names its id. */
  lemma {:induction false} OwnIngredients(older: seq<Ingredient>, added: seq<Ingredient>, id: int)
    requires forall x :: x in older ==> x.recipeId != id
    requires forall x :: x in added ==> x.recipeId == id
    ensures IngredientsOf(older + added, id) == added
  {
    if added == [] {
      assert older + added == older;
      NoIngredientsOf(older, id);
    } else {
      var last := added[|added| - 1];
      OwnIngredients(older, added[..|added| - 1], id);
      assert older + added == (older + added[..|added| - 1]) + [last];
      IngredientsOfSnoc(older + added[..|added| - 1], last, id);
    }
  }

  lemma {:induction false} NoIngredientsOf(s: seq<Ingredient>, id: int)
    requires forall x :: x in s ==> x.recipeId != id
    ensures IngredientsOf(s, id) == []
  {
    if s != [] {
      assert forall x :: x in s[1..] ==> x in s;
      NoIngredientsOf(s[1..], id);
    }
  }

  lemma {:induction false} IngredientsOfSnoc(s: seq<Ingredient>, x: Ingredient, id: int)
    ensures IngredientsOf(s + [x], id) == IngredientsOf(s, id) + (if x.recipeId == id then [x] else [])
  {
    if s == [] {
      assert [] + [x] == [x];
    } else {
      IngredientsOfSnoc(s[1..], x, id);
      assert (s + [x])[1..] == s[1..] + [x];
    }
  }
}
