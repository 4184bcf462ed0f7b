/**
 * The request handlers of app/main.py that combine the pieces: the week
 * window, the store queries, the shopping-list aggregation, the planner
 * grid, the CSV and PDF table rows and the recipe form. `date.today()` is
 * the parameter `today`; a `Response` is either the page's data or a
 * server error, which is what an uncaught exception in a handler becomes.
 */
module Routes {
  import opened Text
  import opened Calendar
  import opened Models
  import opened ShoppingList
  import opened Crud
  import opened Planner
  import opened Loading
  import opened IngredientForm

  datatype Response<T> = Ok(value: T) | ServerError

  /** What the planner page receives: the seven days, `plan_data` and the recipe listing. */
  datatype PlannerPage = PlannerPage(days: seq<Date>, grid: map<Date, DaySlots>, recipes: seq<Recipe>)

  /** The shopping list of the week holding `today`, sorted by name; `None` where the week runs past the calendar. */
  function WeekList(recipes: seq<Recipe>, ingredients: seq<Ingredient>, mealPlans: seq<MealPlan>, today: Date)
    : (r: Option<seq<Item>>)
    ensures r.None? <==> EndOfWeek(today).None?
    ensures r.Some? ==> StrictlySorted(r.value)
  {
    match EndOfWeek(today)
    case None => None
    case Some(end) =>
      var plans := LoadAvailablePlans(recipes, ingredients, PlansBetween(mealPlans, StartOfWeek(today), end));
      AggregateSorted(plans);
      Some(Aggregate(plans))
  }

  /**
   * When the handlers as written fail: the week runs past the calendar, or a
   * plan of the week has no recipe and `plan.recipe.ingredients` raises.
   */
  predicate AsWrittenFails(recipes: seq<Recipe>, ingredients: seq<Ingredient>, mealPlans: seq<MealPlan>, today: Date) {
    || EndOfWeek(today).None?
    || LoadPlansAsWritten(recipes, ingredients, PlansBetween(mealPlans, StartOfWeek(today), EndOfWeek(today).value)).None?
  }

  /** The rows handed to `csv.writer`, collected one `writerow` call at a time. */
  class CsvWriter {
    var rows: seq<seq<string>>

    constructor ()
      ensures rows == []
    {
      rows := [];
    }

    method WriteRow(row: seq<string>)
      modifies this
      ensures rows == old(rows) + [row]
    {
      rows := rows + [row];
    }
  }

  /** The rows `export_shopping_list_csv` writes: the header, then one row per item. */
  method CsvRows(list: seq<Item>) returns (rows: seq<seq<string>>)
    ensures IsExportTable(rows, list)
  {
    var writer := new CsvWriter();
    writer.WriteRow(Header);
    for i := 0 to |list|
      invariant |writer.rows| == 1 + i && writer.rows[0] == Header
      invariant forall k :: 0 <= k < i ==> writer.rows[k + 1] == [list[k].name, list[k].quantities]
    {
      writer.WriteRow([list[i].name, list[i].quantities]);
    }
    rows := writer.rows;
  }

  /** `view_shopping_list`, loading only the plans whose recipe is stored. */
  method ViewShoppingList(store: Store, today: Date) returns (r: Response<seq<Item>>)
    ensures r.ServerError? <==> EndOfWeek(today).None?
    ensures r.Ok? ==> Some(r.value) == WeekList(store.recipes, store.ingredients, store.mealPlans, today)
  {
    var start := StartOfWeek(today);
    var end := EndOfWeek(today);
    if end.None? {
      return ServerError;
    }
    var plans := store.GetMealPlans(start, end.value);
    var list := GenerateShoppingListData(LoadAvailablePlans(store.recipes, store.ingredients, plans));
    return Ok(list);
  }

  /** `view_shopping_list` as written: it also fails when a plan of the week has no recipe. */
  method ViewShoppingListAsWritten(store: Store, today: Date) returns (r: Response<seq<Item>>)
    ensures r.ServerError? <==> AsWrittenFails(store.recipes, store.ingredients, store.mealPlans, today)
    ensures r.Ok? ==> Some(r.value) == WeekList(store.recipes, store.ingredients, store.mealPlans, today)
  {
    var start := StartOfWeek(today);
    var end := EndOfWeek(today);
    if end.None? {
      return ServerError;
    }
    var plans := store.GetMealPlans(start, end.value);
    var loaded := LoadPlansAsWritten(store.recipes, store.ingredients, plans);
    if loaded.None? {
      return ServerError;
    }
    LoadAvailableAgrees(store.recipes, store.ingredients, plans);
    var list := GenerateShoppingListData(loaded.value);
    return Ok(list);
  }

  /** `export_shopping_list_csv`: the week's list as CSV rows. */
  method ExportShoppingListCsv(store: Store, today: Date) returns (r: Response<seq<seq<string>>>)
    ensures r.ServerError? <==> EndOfWeek(today).None?
    ensures r.Ok? ==> IsExportTable(r.value, WeekList(store.recipes, store.ingredients, store.mealPlans, today).value)
  {
    var list := ViewShoppingList(store, today);
    if list.ServerError? {
      return ServerError;
    }
    var rows := CsvRows(list.value);
    return Ok(rows);
  }

  /** `export_shopping_list_pdf`: the week's list as the PDF table's rows. */
  method ExportShoppingListPdf(store: Store, today: Date) returns (r: Response<seq<seq<string>>>)
    ensures r.ServerError? <==> EndOfWeek(today).None?
    ensures r.Ok? ==> IsExportTable(r.value, WeekList(store.recipes, store.ingredients, store.mealPlans, today).value)
  {
    var list := ViewShoppingList(store, today);
    if list.ServerError? {
      return ServerError;
    }
    var data := PdfTableData(list.value);
    return Ok(data);
  }

  /** `export_shopping_list_csv` as written: it also fails when a plan of the week has no recipe. */
  method ExportShoppingListCsvAsWritten(store: Store, today: Date) returns (r: Response<seq<seq<string>>>)
    ensures r.ServerError? <==> AsWrittenFails(store.recipes, store.ingredients, store.mealPlans, today)
    ensures r.Ok? ==> IsExportTable(r.value, WeekList(store.recipes, store.ingredients, store.mealPlans, today).value)
  {
    var list := ViewShoppingListAsWritten(store, today);
    if list.ServerError? {
      return ServerError;
    }
    var rows := CsvRows(list.value);
    return Ok(rows);
  }

  /** `export_shopping_list_pdf` as written: it also fails when a plan of the week has no recipe. */
  method ExportShoppingListPdfAsWritten(store: Store, today: Date) returns (r: Response<seq<seq<string>>>)
    ensures r.ServerError? <==> AsWrittenFails(store.recipes, store.ingredients, store.mealPlans, today)
    ensures r.Ok? ==> IsExportTable(r.value, WeekList(store.recipes, store.ingredients, store.mealPlans, today).value)
  {
    var list := ViewShoppingListAsWritten(store, today);
    if list.ServerError? {
      return ServerError;
    }
    var data := PdfTableData(list.value);
    return Ok(data);
  }

  /** `view_planner`: the seven days, the grid of the week's plans, and the recipe listing. */
  method ViewPlanner(store: Store, today: Date) returns (r: Response<PlannerPage>)
    ensures r.ServerError? <==> WeekDays(today).None?
    ensures r.Ok? ==> r.value.days == WeekDays(today).value
    ensures r.Ok? ==> GridShows(r.value.grid, r.value.days, store.recipes,
                                PlansBetween(store.mealPlans, r.value.days[0], r.value.days[6]))
    ensures r.Ok? ==> r.value.recipes == store.GetRecipes(0, DefaultLimit)
  {
    var week := WeekDays(today);
    if week.None? {
      return ServerError;
    }
    var days := week.value;
    var plans := store.GetMealPlans(days[0], days[6]);
    WeekPlansFitGrid(today, plans);
    var listing := store.GetRecipes(0, DefaultLimit);
    var grid := BuildPlanGrid(days, plans, store.recipes);
    return Ok(PlannerPage(days, grid, listing));
  }

  /** `create_recipe` (the form handler): parse the ingredient text, then store the recipe and its ingredients. */
  method CreateRecipeFromForm(store: Store, title: string, instructions: string, totalTime: int, category: string,
                              ingredientsRaw: string)
    returns (r: Recipe)
    requires store.Valid()
    modifies store
    ensures store.Valid()
    ensures store.recipes == old(store.recipes) + [r]
    ensures r == Recipe(old(store.nextRecipeId), title, instructions, totalTime, category)
    ensures store.ingredients
      == old(store.ingredients) + NewIngredients(ParsedLines(Split(Strip(ingredientsRaw), LineSeparator)), r.id,
                                                 old(store.nextIngredientId))
    ensures IngredientsOf(store.ingredients, r.id)
      == NewIngredients(ParsedLines(Split(Strip(ingredientsRaw), LineSeparator)), r.id, old(store.nextIngredientId))
    ensures store.mealPlans == old(store.mealPlans)
  {
    var list := ParseIngredients(ingredientsRaw);
    r := store.CreateRecipe(RecipeCreate(title, instructions, totalTime, category, list));
  }
}
