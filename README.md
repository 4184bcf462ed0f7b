# Rentless meal planner, modelled in Dafny

The meal planner keeps recipes with their ingredients, and a weekly plan
that assigns recipes to the slots "Matin", "Midi" and "Soir" of each day.
From the plans of the current week (Monday to Sunday) it builds a shopping
list. Ingredients are grouped by lower-cased name. Each row lists the raw
quantity strings of its group once each, never summed. Rows are named by
the capitalized key and sorted by name. The list is exported as CSV rows
and as the table of a PDF.

This project models that core and proves its properties:

- `Text`: the Python `str` operations the code relies on (`strip`, `lower`,
  `capitalize`, `split`, `join`, ordinal `<`).
- `Calendar`: dates as `date.toordinal()` values, the weekday, and the
  Monday-to-Sunday window around a reference day.
- `Models`: the stored records and the request shapes.
- `Crud`: the database functions over an in-memory `Store` class holding the
  three tables and an id counter per table.
- `ShoppingList`: the aggregation, as a specification function `Aggregate`
  and as the source's nested-loop method, plus the PDF table rows.
- `IngredientForm`: the `quantité:nom` text-area parser of the recipe form.
- `Planner`: the `plan_data` grid of the planner page.
- `Loading`: how the aggregation reaches each plan's recipe (see Findings).
- `Routes`: the request handlers that chain these pieces, with `date.today()`
  passed as a parameter.

Where the system's specification and its code disagree, the model
follows the code:

- The specification calls the week window total. The code raises
  `OverflowError` when `start_of_week + timedelta(days=6)` passes 9999-12-31;
  the model returns `None` there.
- The specification says every meal plan references exactly one recipe. The
  code lets a plan lose its recipe, and the shopping-list handlers then
  fail. The handlers as written are modelled with that failure
  (`Routes.ViewShoppingListAsWritten`, `Routes.ExportShoppingListCsvAsWritten`,
  `Routes.ExportShoppingListPdfAsWritten`). Beside them, corrected handlers
  (`Routes.ViewShoppingList`, `Routes.ExportShoppingListCsv`,
  `Routes.ExportShoppingListPdf`) skip such plans. This is the one place
  where the model departs from the code on purpose (see Findings).

## Model

| member | source | states |
|---|---|---|
| Calendar.Weekday | app/main.py:76 | `date.weekday()`: a value in 0..6, with Monday = 0 counted from ordinal 1 (a Monday) |
| Calendar.AddDays | app/main.py:113 | `d + timedelta(days=n)` is defined exactly when the result stays within year 1 to 9999, and then lies n days after d |
| Calendar.StartOfWeek | app/main.py:76 | the start of the week is a Monday, at most six days before `today` |
| Calendar.StartOfWeekUnique | app/main.py:76 | any Monday at most six days before `today` is that start, so the window is unique |
| Calendar.WeekDays | app/main.py:75-77 | seven consecutive days, Monday first and Sunday last, containing `today`; `None` exactly when the last day would overflow |
| Calendar.EndOfWeek | app/main.py:111-113 | `end_of_week` exists exactly when the seven days do; it equals `days[-1]`, is a Sunday, and is `start_of_week + 6` |
| Calendar.WeekOverflowsOnlyAtTheEnd | app/main.py:75-77 | the window fails exactly for `today` in 9999-12-27 to 9999-12-31 |
| Text.StripStart | app/main.py:50 | `lstrip` result is no longer than the input and starts with a non-space |
| Text.StripEnd | app/main.py:50 | `rstrip` result is no longer than the input and ends with a non-space |
| Text.Strip | app/main.py:50 | `strip()` result has no whitespace at either end |
| Text.StripStartSuffix | app/main.py:50 | `lstrip` removes an all-whitespace prefix and keeps the rest |
| Text.StripEndPrefix | app/main.py:50 | `rstrip` removes an all-whitespace suffix and keeps the rest |
| Text.StripSlice | app/main.py:50 | `strip()` is a slice of its input with only whitespace cut off either side |
| Text.StripStripped | app/main.py:53 | `strip()` leaves a stripped string unchanged (idempotence) |
| Text.StripKeepsOut | app/main.py:52-53 | `strip()` adds no character: one absent from the input is absent from the result |
| Text.Lower | app/utils.py:21 | `lower()` keeps the length and maps each character through ASCII lower-casing |
| Text.LowerIsLowered | app/utils.py:21 | `lower()` leaves no upper-case letter and is idempotent |
| Text.Capitalize | app/utils.py:28 | `capitalize()` keeps the length, upper-cases the first character and lower-cases the rest |
| Text.LowerCapitalize | app/utils.py:21-28 | lower-casing a capitalized key gives the key back |
| Text.CapitalizeInjective | app/utils.py:21-28 | two lowered keys capitalize to the same name exactly when they are equal |
| Text.Find | app/main.py:52 | the first index of a character, `None` exactly when it is absent |
| Text.Split | app/main.py:50 | `split('\n')` gives at least one part and no part holds the separator |
| Text.Join | app/utils.py:29 | `sep.join` of no parts is empty; otherwise its length is the parts' total length plus one separator between each two |
| Text.JoinSplit | app/main.py:50 | splitting at every separator and joining with it again gives the original string, so no character is lost |
| Text.JoinCons | app/utils.py:29 | `sep.join` puts the separator between a first part and the join of the rest |
| Text.FindAfterPrefix | app/main.py:52 | in `a + sep + b` with no separator in `a`, the first separator follows `a` |
| Text.SplitCons | app/main.py:50 | splitting `a + sep + b` yields `a` first when `a` holds no separator |
| Text.SplitJoin | app/main.py:50 | joining separator-free parts and splitting again gives the parts back |
| Text.JoinStartsWithFirst | app/utils.py:29 | a join starts with its first part |
| Text.JoinEndsWithLast | app/utils.py:29 | a join ends with its last part |
| Text.Less | app/utils.py:32 | ordinal string `<`: a proper prefix is smaller, the larger string is non-empty, and the first character of the smaller is at most that of the larger |
| Text.LessIrreflexive | app/utils.py:32 | ordinal string `<` is irreflexive |
| Text.LessAsymmetric | app/utils.py:32 | ordinal string `<` is asymmetric |
| Text.LessTransitive | app/utils.py:32 | ordinal string `<` is transitive |
| Text.LessTotal | app/utils.py:32 | any two strings are equal or ordered one way or the other |
| Models.FindRecipe | app/crud.py:6-7 | `get_recipe`: `None` exactly when no stored recipe has the id, otherwise a stored recipe with that id |
| Models.PlanRecipe | app/models.py:33-35 | `plan.recipe` is `None` exactly when the key is null or no stored recipe has it; otherwise a stored recipe whose id is the key |
| Models.IngredientsOf | app/models.py:14 | `recipe.ingredients` holds exactly the stored ingredients owned by the recipe |
| ShoppingList.Keys | app/utils.py:19-21 | the dictionary keys in first-seen order: no duplicates, at most one per occurrence |
| ShoppingList.KeysMembership | app/utils.py:19-21 | the keys are exactly the lower-cased names of the occurrences |
| ShoppingList.KeyIsLowered | app/utils.py:21 | every key is lower-case |
| ShoppingList.BucketMembership | app/utils.py:21 | a key's list holds exactly the quantities of the occurrences with that key |
| ShoppingList.Dedup | app/utils.py:26 | `list(set(...))`: no duplicates, the same members as the input, no longer |
| ShoppingList.Insert | app/utils.py:32 | inserting into the sorted list keeps the same elements plus the new one |
| ShoppingList.SortByName | app/utils.py:32 | `sorted` returns a permutation of its input |
| ShoppingList.InsertStrictlySorted | app/utils.py:32 | inserting a new name into a strictly sorted list keeps it strictly sorted |
| ShoppingList.SortByNameStrictlySorted | app/utils.py:32 | rows with distinct names come out strictly sorted by name |
| ShoppingList.Buckets | app/utils.py:17-21 | `ingredients_map` has one key per lower-cased ingredient name, and every list in it is non-empty |
| ShoppingList.DictionaryStep | app/utils.py:21 | one more occurrence adds its key if new and appends its quantity to that key's list |
| ShoppingList.BucketOfUnseenKey | app/utils.py:17-21 | a key never seen has an empty list (`defaultdict(list)`) |
| ShoppingList.BucketsAgree | app/utils.py:17-21 | the dictionary has exactly the listed keys, each mapped to that key's quantities in order |
| ShoppingList.Record | app/utils.py:21 | one append to `ingredients_map` gives the dictionary of the occurrences seen so far plus one |
| ShoppingList.BuildRows | app/utils.py:24-30 | the second loop builds one row per key in key order: capitalized key, deduplicated quantities joined by ", " |
| ShoppingList.GenerateShoppingListData | app/utils.py:16-32 | the nested-loop computation returns exactly `Aggregate` of its plans |
| ShoppingList.Aggregate | app/utils.py:16-32 | the list holds exactly the per-key rows, one per distinct lower-cased name, in some order |
| ShoppingList.AggregateSorted | app/utils.py:32 | the list is sorted by name, strictly, so no two rows share a name |
| ShoppingList.AggregateRowIsRowOfKey | app/utils.py:25-32 | every row is the row of a key, recoverable by lower-casing its name |
| ShoppingList.AggregateRowContents | app/utils.py:21-30 | each row's name is its key capitalized, some ingredient has that key, and its quantities are that key's quantity strings, each once, joined by ", " |
| ShoppingList.AggregateCoversEveryIngredient | app/utils.py:19-30 | every ingredient of every plan has a row under its capitalized lower-cased name |
| ShoppingList.SameRowIffSameKey | app/utils.py:21-30 | two ingredients fall in the same row exactly when their lower-cased names are equal |
| ShoppingList.AggregateSize | app/utils.py:17-32 | one row per distinct key; no more rows than ingredient occurrences; empty exactly when there is no occurrence (no plans, or recipes without ingredients) |
| ShoppingList.OccurrencesAppend | app/utils.py:19-20 | the occurrences of two plan lists are the concatenation of theirs |
| ShoppingList.KeysAppendCovered | app/utils.py:21 | occurrences whose keys are already listed add no key |
| ShoppingList.BucketAppend | app/utils.py:21 | a key's list over two runs of occurrences is the concatenation of its lists |
| ShoppingList.KeyListed | app/utils.py:21 | every occurrence's key is listed |
| ShoppingList.QuantityInBucket | app/utils.py:21 | every occurrence's quantity is in its key's list |
| ShoppingList.BucketCovered | app/utils.py:21 | a key's quantities over a sub-collection of occurrences are among its quantities over the whole |
| ShoppingList.DedupAppendCovered | app/utils.py:26 | appending quantities already present leaves the deduplicated list unchanged |
| ShoppingList.AggregateIgnoresRepeats | app/utils.py:19-32 | plans whose ingredient occurrences all occur already leave the list unchanged: nothing is summed |
| ShoppingList.RowsIgnoreRepeats | app/utils.py:21-26 | occurrences that all occurred already add no key and leave every row as it was |
| ShoppingList.ScheduledTwice | app/utils.py:19-26 | a second plan of a recipe already planned, in any slot, yields the same list |
| ShoppingList.ExportTableUnique | app/main.py:135-137 | the header-plus-rows table of a list is unique, so the CSV rows and the PDF data of the same list are equal |
| ShoppingList.PdfTableData | app/utils.py:54-56 | the PDF `data` is the header `["Ingrédient", "Quantité"]`, then `[name, quantities]` per item in order, length 1 + n |
| IngredientForm.ParseLine | app/main.py:51-53 | a line yields an ingredient exactly when it contains ':' |
| IngredientForm.Entry | app/main.py:51-53 | a line contributes at most one ingredient |
| IngredientForm.FlatMapAppend | app/main.py:50-53 | parsing lines one after another concatenates their results |
| IngredientForm.FlatMapOfSingletons | app/main.py:50-53 | lines that each yield exactly one given ingredient parse to those ingredients in order |
| IngredientForm.ParsedLinesStep | app/main.py:50-53 | one more line appends its entry |
| IngredientForm.ParseIngredients | app/main.py:48-53 | the loop builds exactly the ingredients of the stripped, newline-split text, line by line |
| IngredientForm.ParseLineAtFirstColon | app/main.py:52-53 | the line is cut at its first ':' only: quantity = stripped text before it, name = stripped text after it |
| IngredientForm.ParsedLinesAppend | app/main.py:50-53 | line order is kept: the parse of two blocks of lines is the concatenation of their parses |
| IngredientForm.ParsedLinesLength | app/main.py:50-51 | at most one ingredient per line |
| IngredientForm.ParsedLinesSkipsColonFree | app/main.py:51 | lines without ':' contribute nothing |
| IngredientForm.ParsedFields | app/main.py:52-53 | every parsed quantity is free of ':' and both fields come out stripped |
| IngredientForm.ParseFormatLine | app/main.py:52-53 | writing a stripped ingredient as `quantité:nom` and parsing the line gives it back |
| IngredientForm.FormattedLinesUnbroken | app/main.py:50-52 | no line written for a writable ingredient holds a line break |
| IngredientForm.FormattedStripped | app/main.py:50 | the text written for writable ingredients is unchanged by `strip()` |
| IngredientForm.ParseFormattedLines | app/main.py:50-53 | formatted lines parse back to their ingredients in order |
| IngredientForm.ParseFormatIngredients | app/main.py:48-53 | writing ingredients into the text area and parsing it gives the same ingredients back |
| Crud.PlansBetween | app/crud.py:39-40 | exactly the plans with `start <= date <= end`, both ends inclusive; none when `end < start` |
| Crud.PlansOutsideSlot | app/crud.py:44-47 | the bulk delete keeps exactly the plans of other slots |
| Crud.ConsOnePlanPerSlot | app/crud.py:42-53 | a plan of a slot no other plan uses can be put in front without breaking one plan per slot |
| Crud.PlansOutsideSlotKeepsOnePerSlot | app/crud.py:44-47 | the bulk delete keeps one plan per slot |
| Crud.RecipesWithout | app/crud.py:31-36 | the deletion keeps exactly the recipes with other ids |
| Crud.ConsIncreasingRecipeIds | app/crud.py:12-21 | a recipe with an id below all others can be put in front without breaking increasing ids |
| Crud.RecipesWithoutKeepsIncreasing | app/crud.py:31-36 | deleting a recipe keeps the remaining ids increasing |
| Crud.IngredientsWithout | app/models.py:14 | the delete-orphan cascade keeps exactly the ingredients of other recipes |
| Crud.DetachAll | app/models.py:15 | after a recipe is deleted, each plan is kept in place, its key nulled if it named that recipe |
| Crud.DetachAllKeepsSlots | app/models.py:15 | nulling keys keeps plan ids and one plan per slot |
| Crud.UpsertKeepsOnePlanPerSlot | app/crud.py:42-53 | delete-then-add keeps one plan per slot, makes the new plan the slot's only plan, and keeps every plan of other slots |
| Crud.AddRecipeConsistent | app/crud.py:13-21 | adding a recipe under the next id keeps the store consistent, and that id was unused |
| Crud.FindInAppended | app/crud.py:13-21 | a recipe added under an unused id is found by that id |
| Crud.AddIngredientsConsistent | app/crud.py:23-27 | adding ingredient rows of a stored recipe under fresh ids keeps the store consistent |
| Crud.CreateRecipeConsistent | app/crud.py:12-29 | storing a recipe and its ingredients keeps the store consistent, and the recipe owns exactly the new rows |
| Crud.Store.constructor | app/models.py:5-35 | an empty store is consistent |
| Crud.Store.GetRecipes | app/crud.py:9-10 | `offset(skip).limit(limit)`: the recipes at positions `skip` to `skip + limit - 1` that exist, so at most `limit` |
| Crud.Store.GetMealPlans | app/crud.py:39-40 | exactly the stored plans dated from `start` to `end`, both included; empty for an empty range |
| Crud.Store.GetWeeklySummary | app/crud.py:55-59 | the same plans as `get_meal_plans` over the same range |
| Crud.Store.CreateRecipe | app/crud.py:12-29 | a recipe under a fresh unused id, then one ingredient per requested ingredient under fresh ids, all owned by it; plans unchanged; store stays consistent |
| Crud.Store.DeleteRecipe | app/crud.py:31-36 | an unknown id returns `None` and changes nothing; otherwise the recipe and its ingredients are removed, the other rows kept in order, and plans naming it get a null key |
| Crud.Store.CreateMealPlan | app/crud.py:42-53 | the slot's old plans are replaced by the new plan under a fresh id with no error; other slots' plans are kept; one plan per slot holds |
| Crud.DeleteConsistent | app/crud.py:31-36 | deleting a recipe with its cascade keeps the store consistent |
| Crud.OwnIngredients | app/crud.py:23-27 | a fresh recipe owns exactly the ingredients added for it |
| Crud.NoIngredientsOf | app/models.py:14 | a recipe no ingredient names has no ingredients |
| Crud.IngredientsOfSnoc | app/models.py:14 | one more ingredient row extends the owner's ingredients by that row |
| Planner.EmptyDay | app/main.py:84 | a fresh day has exactly the slots Matin, Midi and Soir, all empty |
| Planner.LastPlanFor | app/main.py:85-86 | the last plan for a slot: none exactly when no plan names it, otherwise a plan of that slot |
| Planner.SlotValue | app/main.py:84-86 | a slot no plan names shows `None`; a slot that shows a recipe shows a stored one that some plan of that slot names |
| Planner.LastPlanForSnoc | app/main.py:85-86 | one more plan becomes the last for its own slot and changes no other slot |
| Planner.WriteSlot | app/main.py:86 | `plan_data[p.date][p.meal_type] = p.recipe` extends the grid by one plan |
| Planner.BuildPlanGrid | app/main.py:84-86 | every day is in the grid; a day has Matin/Midi/Soir plus any planned meal type; each slot shows the recipe of the last plan there, or `None` |
| Planner.UnplannedSlotIsEmpty | app/main.py:84 | a slot no plan names stays `None` |
| Planner.LastPlanWins | app/main.py:85-86 | a plan with no later plan for its slot is the one the slot shows |
| Planner.OverwriteOneSlot | app/main.py:85-86 | one more plan overwrites its own slot and leaves every other slot as it was |
| Planner.UniquePlanShown | app/crud.py:42-53 | with one plan per slot, as the store keeps it, each slot shows its plan's recipe |
| Planner.WeekPlansFitGrid | app/main.py:79-86 | every plan of the week query falls on one of the seven days |
| Loading.LoadPlansAsWritten | app/utils.py:19-20 | loading succeeds exactly when every plan has a stored recipe, and then loads each plan with its recipe and ingredients |
| Loading.LoadAvailablePlans | app/utils.py:19-20 | the corrected loader keeps only plans with a stored recipe, each loaded with that recipe and its ingredients |
| Loading.LoadAvailableKeepsLoadable | app/utils.py:19-20 | every plan with a stored recipe is loaded by the corrected loader |
| Loading.LoadAvailableAgrees | app/utils.py:19-20 | wherever the code as written succeeds, the corrected loader returns the same list |
| Loading.DeletedRecipeBreaksLoad | app/utils.py:20 | after deleting a recipe that a plan names, loading as written fails |
| Loading.UnknownRecipeBreaksLoad | app/utils.py:20 | after planning an unknown recipe id, loading as written fails |
| Loading.DeletedRecipeExample | app/utils.py:20 | a concrete consistent store whose week loads before the delete and fails after it, while the corrected loader returns no plan |
| Routes.WeekList | app/main.py:109-116 | the week's list exists exactly when the week does not overflow, and is then strictly sorted by name |
| Routes.CsvWriter.constructor | app/main.py:133-134 | a fresh writer has written no row |
| Routes.CsvWriter.WriteRow | app/main.py:135-137 | `writerow` appends one row |
| Routes.CsvRows | app/main.py:133-137 | the CSV rows are the header, then `[name, quantities]` per item in order |
| Routes.ViewShoppingList | app/main.py:109-123 | corrected handler: fails exactly when the week overflows; otherwise returns the aggregation of the week's plans that have a recipe |
| Routes.ViewShoppingListAsWritten | app/main.py:109-123 | fails exactly when the week overflows or a plan of the week has no recipe; otherwise the same list |
| Routes.ExportShoppingListCsv | app/main.py:125-143 | corrected handler: fails exactly when the week overflows; otherwise the CSV rows of the week's list |
| Routes.ExportShoppingListCsvAsWritten | app/main.py:125-143 | as written: fails exactly when the week overflows or a plan of the week has no recipe; otherwise the CSV rows of the week's list |
| Routes.ExportShoppingListPdf | app/main.py:145-157 | corrected handler: fails exactly when the week overflows; otherwise the PDF table rows of the week's list |
| Routes.ExportShoppingListPdfAsWritten | app/main.py:145-157 | as written: fails exactly when the week overflows or a plan of the week has no recipe; otherwise the PDF table rows of the week's list |
| Routes.ViewPlanner | app/main.py:72-93 | fails exactly when the week overflows; otherwise the seven days, the grid of the week's plans and the first 100 recipes |
| Routes.CreateRecipeFromForm | app/main.py:36-63 | appends the recipe under the next id and, after the existing ingredient rows, exactly the ingredients parsed from the text area; plans unchanged; the store stays consistent |

## Left out

- PDF rendering through reportlab (app/utils.py:34-53, 58-75): only the table data is modelled.
- CSV serialisation and quoting by `csv.writer`, and the `StringIO` buffer: only the rows written are modelled.
- `parse_quantity` (app/utils.py:9-14): it uses a regular expression and a float, and nothing calls it.
- FastAPI routing, form decoding, redirects, Jinja templates, the static mount and `list_recipes`, `add_recipe_form`, `read_root`: web plumbing with no logic of its own.
- `assign_meal` and the `delete_recipe` handler: they only call `create_meal_plan` and `delete_recipe`, which are modelled as `Crud.Store.CreateMealPlan` and `Crud.Store.DeleteRecipe`. `date.fromisoformat` is a library parser and is not modelled.
- `date.today()` is the parameter `today`; `strftime` labels and file names in the response headers are not modelled.
- SQLAlchemy sessions: `commit`, `refresh`, lazy loading and transactions are not modelled. Autoincrement keys are id counters that start at 1 and never reuse an id. Query results come back in insertion order.
- Concurrency: requests are modelled one at a time.
- ShoppingList.Dedup: Python's `set` iteration order is not modelled; quantities come out in first-seen order. Only the join order inside a row can differ.
- Text.Lower, Text.Capitalize: case mapping covers ASCII letters only, not Unicode case rules.
- app/schemas.py and app/database.py: they hold declarations only, and the datatypes in `Models` take their shapes.
- The planner grid holds the recipe record that `p.recipe` yields, or `None`. Template rendering is not modelled.

## Findings

| source | as written | input that shows it | evidently intended | confidence | as-written member | corrected member |
|---|---|---|---|---|---|---|
| app/utils.py:20 | `plan.recipe.ingredients` is read for every plan of the week. A plan's recipe is `None` after its recipe is deleted, because the foreign key is nulled and not cascaded (app/models.py:15). It is also `None` when `assign_meal` received an unknown `recipe_id`. The access then raises `AttributeError`, and the shopping list, CSV and PDF pages all fail. | Recipe 1 "Soupe" with ingredient "Carotte", planned for "Midi" on ordinal day 738000; then `delete_recipe(1)` and open the shopping list for that week. | Plans without a recipe are skipped, so the list covers the plans that still have one. | not executed | Loading.LoadPlansAsWritten, Loading.DeletedRecipeBreaksLoad, Loading.DeletedRecipeExample, Routes.ViewShoppingListAsWritten, Routes.ExportShoppingListCsvAsWritten, Routes.ExportShoppingListPdfAsWritten | Loading.LoadAvailablePlans, Loading.LoadAvailableAgrees, Routes.ViewShoppingList, Routes.ExportShoppingListCsv, Routes.ExportShoppingListPdf |
