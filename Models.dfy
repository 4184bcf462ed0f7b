/**
 * The stored records (`Recipe`, `Ingredient`, `MealPlan`) and the request
 * shapes that create them. Ids handed out by the store are positive; ids
 * that arrive from a form (`recipe_id`) may be any integer. A meal plan's
 * `recipeId` is `None` once the store has nulled the foreign key.
 */
module Models {
  import opened Text
  import opened Calendar

  datatype Recipe = Recipe(id: int, title: string, instructions: string, totalTime: int, category: string)

  datatype Ingredient = Ingredient(id: int, name: string, quantity: string, recipeId: int)

  datatype MealPlan = MealPlan(id: int, date: Date, mealType: string, recipeId: Option<int>)

  /** `schemas.IngredientCreate`: one `{"name": ..., "quantity": ...}` entry. */
  datatype IngredientCreate = IngredientCreate(name: string, quantity: string)

  /** `schemas.RecipeCreate`. */
  datatype RecipeCreate = RecipeCreate(
    title: string, instructions: string, totalTime: int, category: string,
    ingredients: seq<IngredientCreate>)

  /** A meal plan with its recipe and that recipe's ingredients loaded. */
  datatype LoadedPlan = LoadedPlan(plan: MealPlan, recipe: Recipe, ingredients: seq<Ingredient>)

  /** The first stored recipe with id `id` (`query(Recipe).filter(Recipe.id == id).first()`). */
  function FindRecipe(recipes: seq<Recipe>, id: int): (r: Option<Recipe>)
    ensures r.None? <==> forall x :: x in recipes ==> x.id != id
    ensures r.Some? ==> r.value in recipes && r.value.id == id
  {
    if recipes == [] then None
    else if recipes[0].id == id then Some(recipes[0])
    else FindRecipe(recipes[1..], id)
  }

  /** The relationship `plan.recipe`: `None` when the key is null or names no stored recipe. */
  function PlanRecipe(recipes: seq<Recipe>, p: MealPlan): (r: Option<Recipe>)
    ensures r.None? <==> p.recipeId.None? || forall x :: x in recipes ==> x.id != p.recipeId.value
    ensures r.Some? ==> r.value in recipes && p.recipeId == Some(r.value.id)
  {
    if p.recipeId.None? then None else FindRecipe(recipes, p.recipeId.value)
  }

  /** The relationship `recipe.ingredients`: the stored ingredients whose key is `recipeId`, in table order. */
  function IngredientsOf(ingredients: seq<Ingredient>, recipeId: int): (r: seq<Ingredient>)
    ensures |r| <= |ingredients|
    ensures forall x :: x in r <==> x in ingredients && x.recipeId == recipeId
  {
    if ingredients == [] then []
    else
      var rest := IngredientsOf(ingredients[1..], recipeId);
      assert forall x :: x in ingredients ==> x == ingredients[0] || x in ingredients[1..];
      if ingredients[0].recipeId == recipeId then [ingredients[0]] + rest else rest
  }
}
