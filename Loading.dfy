/**
 * Loading the recipe and ingredients of each meal plan, as
 * `generate_shopping_list_data` does through `plan.recipe.ingredients`
 * (app/utils.py:20). A plan whose recipe key is null (its recipe was
 * deleted) or names no stored recipe (the form accepts any `recipe_id`) has
 * `plan.recipe == None`, and the attribute access raises.
 *
 * `LoadPlansAsWritten` models that access as the code has it; the rest of
 * the model uses `LoadAvailablePlans`, which passes over such plans.
 */
module Loading {
  import opened Text
  import opened Models
  import opened Crud

  /** A plan whose recipe is stored, with that recipe and its ingredients. */
  function Load(ingredients: seq<Ingredient>, p: MealPlan, recipe: Recipe): LoadedPlan {
    LoadedPlan(p, recipe, IngredientsOf(ingredients, recipe.id))
  }

  /** The loaded form of `p`: its plan, stored recipe and that recipe's ingredients. */
  predicate LoadedFrom(recipes: seq<Recipe>, ingredients: seq<Ingredient>, p: MealPlan, l: LoadedPlan) {
    PlanRecipe(recipes, p) == Some(l.recipe) && l == Load(ingredients, p, l.recipe)
  }

  /**
   * `plan.recipe.ingredients` for every plan, in order; `None` stands for
   * the `AttributeError` raised as soon as one plan has no recipe.
   */
  function LoadPlansAsWritten(recipes: seq<Recipe>, ingredients: seq<Ingredient>, plans: seq<MealPlan>)
    : (r: Option<seq<LoadedPlan>>)
    ensures r.Some? <==> forall p :: p in plans ==> PlanRecipe(recipes, p).Some?
    ensures r.Some? ==> |r.value| == |plans|
    ensures r.Some? ==> forall i :: 0 <= i < |plans| ==> LoadedFrom(recipes, ingredients, plans[i], r.value[i])
  {
    if plans == [] then Some([])
    else
      var p := plans[|plans| - 1];
      assert forall q :: q in plans ==> q in plans[..|plans| - 1] || q == p;
      match LoadPlansAsWritten(recipes, ingredients, plans[..|plans| - 1])
      case None => None
      case Some(prefix) =>
        match PlanRecipe(recipes, p)
        case None => None
        case Some(recipe) => Some(prefix + [Load(ingredients, p, recipe)])
  }

  /** The plans that have a stored recipe, loaded, in order; the others are passed over. */
  function LoadAvailablePlans(recipes: seq<Recipe>, ingredients: seq<Ingredient>, plans: seq<MealPlan>)
    : (r: seq<LoadedPlan>)
    ensures |r| <= |plans|
    ensures forall l :: l in r ==> l.plan in plans && LoadedFrom(recipes, ingredients, l.plan, l)
  {
    if plans == [] then []
    else
      var p := plans[|plans| - 1];
      var prefix := LoadAvailablePlans(recipes, ingredients, plans[..|plans| - 1]);
      match PlanRecipe(recipes, p)
      case None => prefix
      case Some(recipe) => prefix + [Load(ingredients, p, recipe)]
  }

  // ---------------------------------------------------------------------
  // The corrected loader

  /** Every plan with a stored recipe is loaded. */
  lemma {:induction false} LoadAvailableKeepsLoadable(recipes: seq<Recipe>, ingredients: seq<Ingredient>,
                                                      plans: seq<MealPlan>, p: MealPlan)
    requires p in plans && PlanRecipe(recipes, p).Some?
    ensures Load(ingredients, p, PlanRecipe(recipes, p).value) in LoadAvailablePlans(recipes, ingredients, plans)
  {
    var prefix := plans[..|plans| - 1];
    if p != plans[|plans| - 1] {
      assert p in prefix;
      LoadAvailableKeepsLoadable(recipes, ingredients, prefix, p);
    }
  }

  /** Where the code as written does not raise, the corrected loader returns the same list. */
  lemma {:induction false} LoadAvailableAgrees(recipes: seq<Recipe>, ingredients: seq<Ingredient>, plans: seq<MealPlan>)
    requires LoadPlansAsWritten(recipes, ingredients, plans).Some?
    ensures LoadPlansAsWritten(recipes, ingredients, plans) == Some(LoadAvailablePlans(recipes, ingredients, plans))
  {
    if plans != [] {
      LoadAvailableAgrees(recipes, ingredients, plans[..|plans| - 1]);
    }
  }

  // ---------------------------------------------------------------------
  // How a plan loses its recipe

  /**
   * Deleting a recipe that a meal plan names leaves that plan without a
   * recipe, and loading the plans as written then raises.
   */
  lemma DeletedRecipeBreaksLoad(recipes: seq<Recipe>, ingredients: seq<Ingredient>, plans: seq<MealPlan>,
                                id: int, p: MealPlan)
    requires p in plans && p.recipeId == Some(id)
    ensures LoadPlansAsWritten(RecipesWithout(recipes, id), IngredientsWithout(ingredients, id),
                               DetachAll(plans, id)).None?
  {
    var i :| 0 <= i < |plans| && plans[i] == p;
    assert DetachAll(plans, id)[i] in DetachAll(plans, id);
  }

  /** Planning a recipe id that is not stored gives the plan no recipe, and loading as written raises. */
  lemma UnknownRecipeBreaksLoad(recipes: seq<Recipe>, ingredients: seq<Ingredient>, plans: seq<MealPlan>,
                                plan: MealPlan)
    requires plan.recipeId.Some? && FindRecipe(recipes, plan.recipeId.value).None?
    ensures LoadPlansAsWritten(recipes, ingredients, PlansOutsideSlot(plans, plan.date, plan.mealType) + [plan]).None?
  {
    var ps := PlansOutsideSlot(plans, plan.date, plan.mealType) + [plan];
    assert ps[|ps| - 1] in ps;
  }

  /**
   * A concrete store: recipe 1 with one ingredient, planned for lunch on
   * day 738000; once recipe 1 is deleted the plan remains with a null key.
   * Loading the plans worked before the delete and raises after it, while the
   * corrected loader passes over the plan.
   */
  lemma DeletedRecipeExample()
    ensures var recipes := [Recipe(1, "Soupe", "Mixer", 20, "Dîner")];
      var ingredients := [Ingredient(1, "Carotte", "3", 1)];
      var plans := [MealPlan(1, 738000, "Midi", Some(1))];
      && Consistent(recipes, ingredients, plans, 2, 2, 2)
      && LoadPlansAsWritten(recipes, ingredients, plans).Some?
      && LoadPlansAsWritten(RecipesWithout(recipes, 1), IngredientsWithout(ingredients, 1), DetachAll(plans, 1)).None?
      && LoadAvailablePlans(RecipesWithout(recipes, 1), IngredientsWithout(ingredients, 1), DetachAll(plans, 1)) == []
  {
    var recipes := [Recipe(1, "Soupe", "Mixer", 20, "Dîner")];
    var ingredients := [Ingredient(1, "Carotte", "3", 1)];
    var plans := [MealPlan(1, 738000, "Midi", Some(1))];
    var after := DetachAll(plans, 1);
    assert after == [MealPlan(1, 738000, "Midi", None)];
    assert RecipesWithout(recipes, 1) == [];
    DeletedRecipeBreaksLoad(recipes, ingredients, plans, 1, plans[0]);
  }
}
