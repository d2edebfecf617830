# Kokbok: a verified model of the recipe app's page logic

Kokbok is a Swedish recipe web app. It has a recipe catalogue, a recipe search with a filter bar, a weekly meal planner that generates a shopping list, a shopping list page, a pantry with recipe suggestions, a step checklist with cooking timers, a recipe studio form, an ingredient table, an Excel import wizard and a servings stepper. This project models the state and the handlers of those pages in Dafny. It also proves what the handlers promise.

Each source file has one module:

| module | source file | form |
|---|---|---|
| `RecipeData` | lib/recipe-data.ts | datatypes and the constant catalogue |
| `Planner` | app/planner/page.tsx | functions; `generateShoppingList` as a method with its two loops |
| `ListPage` | app/list/page.tsx | functions; the category grouping as a method with its loop |
| `Pantry` | app/pantry/page.tsx | functions |
| `RecipeSearch` | app/recipes/page.tsx | functions |
| `FilterBar` | components/filter-bar.tsx | functions returning the state passed to `onFiltersChange` |
| `DataTable` | components/data-table.tsx | functions, plus a `Table` class for the component's state |
| `StepChecklist` | components/step-checklist.tsx | functions; the initial state and the timer tick as methods with loops |
| `Studio` | app/studio/new/page.tsx | functions, plus an `Editor` class holding the form and the tag input |
| `ImportWizard` | components/excel-import-wizard.tsx | a `Wizard` class whose methods update step, progress and file name |
| `ServingStepper` | components/serving-stepper.tsx | functions |

Four helper modules model the JavaScript built-ins the pages use:
- `Wrappers`: `Option`, standing for `undefined`/`null` and for `find` results.
- `Text`: `toLowerCase`, `trim`, `includes` and `localeCompare`.
- `Seqs`: `filter`, `Array.from(new Set(...))`, `find` and subsequences.
- `StableSort`: `Array.prototype.sort`, which is stable since ECMAScript 2019.

A React state setter becomes a function from the old state to the new one. A handler that does nothing in some case returns the old state, or `None` when no call is made. A state object that several handlers update becomes a class with `modifies` clauses.

## Model

| member | source | states |
|---|---|---|
| `RecipeData.KottbullarWellFormed` | lib/recipe-data.ts:46-94 | Köttbullar's total time is prep plus cook time; it has ingredients, with distinct ids and positive amounts; every step duration is positive; its difficulty is one of the three levels |
| `RecipeData.PannkakorWellFormed` | lib/recipe-data.ts:95-138 | the same for Pannkakor |
| `RecipeData.LaxgrytaWellFormed` | lib/recipe-data.ts:139-180 | the same for Laxgryta |
| `RecipeData.MockRecipesWellFormed` | lib/recipe-data.ts:45-181 | every catalogue recipe is well formed and serves 4, and the recipe ids are distinct |
| `RecipeData.SmallestAmountIsCitron` | lib/recipe-data.ts:45-181 | every ingredient amount in the catalogue is at least 0.5, which is Laxgryta's half lemon |
| `Planner.GetPlannedMeal` | app/planner/page.tsx:44-46 | the result is a plan entry for that day and meal; it is none exactly when no entry matches |
| `Planner.GetRecipe` | app/planner/page.tsx:48-50 | the result is a catalogue recipe with that id; it is none exactly when no recipe has the id |
| `Planner.InitialPlanSlots` | app/planner/page.tsx:20-35 | the starting calendar fills Monday dinner and Tuesday lunch and leaves every other slot empty |
| `Planner.RemoveMeal` | app/planner/page.tsx:52-54 | keeps exactly the meals with another id, each as often as in the plan and in order; an absent id changes nothing |
| `Planner.Scaled` | app/planner/page.tsx:62-72 | one contribution per ingredient: the lower-cased name as key and the amount times the scale |
| `Planner.KeysOf` | app/planner/page.tsx:64 | the key of each contribution, in order |
| `Planner.ScaledSnoc` | app/planner/page.tsx:63 | scaling one more ingredient appends its contribution |
| `Planner.MergeSnoc` | app/planner/page.tsx:65-73 | merging one more contribution is one step of the loop body |
| `Planner.SumForSnoc` | app/planner/page.tsx:66 | one more contribution adds its amount to the sum under its own key only |
| `Planner.SumForAbsent` | app/planner/page.tsx:65-73 | nothing is summed under a key that never occurs |
| `Planner.MergeKeys` | app/planner/page.tsx:57-78 | the dictionary's keys are the distinct lower-cased names in order of first appearance; every key has an entry and every entry a key |
| `Planner.MergeKeysStep` | app/planner/page.tsx:65-73 | one loop step keeps the keys distinct and in step with the entries |
| `Planner.FindKey` | app/planner/page.tsx:64-65 | a contribution with key `k` exists exactly when `k` is a contributed key |
| `Planner.MergeEntryAt` | app/planner/page.tsx:65-73 | the entry under a key is the sum of all amounts under it, with the name and unit of the first contribution |
| `Planner.MergeEntries` | app/planner/page.tsx:57-78 | the dictionary has an entry exactly for each contributed key, and each entry is as in `MergeEntryAt` |
| `Planner.AddStep` | app/planner/page.tsx:65-73 | a key already present gets the amount added; a new key is appended with its entry |
| `Planner.ScaledPrefix` | app/planner/page.tsx:63 | the contributions of one more ingredient of the recipe |
| `Planner.AddIngredients` | app/planner/page.tsx:63-74 | the inner loop leaves the dictionary equal to the merge of everything so far plus this recipe's scaled ingredients |
| `Planner.GenerateShoppingList` | app/planner/page.tsx:56-79 | the nested loops return the shopping list: the merged entries in key order |
| `Planner.EmptyPlan` | app/planner/page.tsx:56-79 | an empty plan gives an empty list |
| `Planner.ShoppingListLines` | app/planner/page.tsx:56-79 | one line per distinct lower-cased ingredient name, in order of first appearance; each line has the summed amount and the first name and unit |
| `Planner.UnresolvedMealsIgnored` | app/planner/page.tsx:60-61 | meals whose recipe id resolves to no recipe do not change the list |
| `Planner.ScaleLaws` | app/planner/page.tsx:62 | a meal for the recipe's own servings uses the recipe's amounts, and one for twice the servings uses twice the amounts |
| `Planner.UnitsNotReconciled` | app/planner/page.tsx:64-72 | two ingredients whose lower-cased names agree become one line; the amounts are added whatever the units, and the first unit and name are kept |
| `ListPage.ToggleItem` | app/list/page.tsx:33-35 | items with that id flip `checked` and nothing else; the other items are unchanged |
| `ListPage.ToggleTwice` | app/list/page.tsx:33-35 | toggling twice restores the list |
| `ListPage.RemoveItem` | app/list/page.tsx:37-39 | keeps exactly the items with another id, each as often as in the list and in order; an absent id changes nothing |
| `ListPage.AddItem` | app/list/page.tsx:41-54 | blank input changes nothing; otherwise the trimmed text is appended as an unchecked "1 st" item in "Övrigt" with the given id, and the input is cleared |
| `ListPage.ClearChecked` | app/list/page.tsx:56-58 | keeps exactly the unchecked items, in order |
| `ListPage.CheckedPositionsCount` | app/list/page.tsx:72 | filtering on `checked` keeps one item per checked position |
| `ListPage.CheckedCount` | app/list/page.tsx:72 | the number of positions holding a checked item; so at most the number of items, and zero exactly when nothing is checked |
| `ListPage.ClearCheckedLaws` | app/list/page.tsx:56-58 | after clearing nothing is checked, clearing again changes nothing, and exactly the checked items go |
| `ListPage.InitialCounts` | app/list/page.tsx:22-29 | the initial list has six items, of which one is checked |
| `ListPage.CategoriesSnoc` | app/list/page.tsx:63-68 | one more item adds its category to the distinct categories when it is new |
| `ListPage.GroupMapGroups` | app/list/page.tsx:61-70 | there is a group exactly for each category that occurs, and each group holds that category's items in list order |
| `ListPage.HasGroupIff` | app/list/page.tsx:64-66 | a category has a group exactly when it is one of the distinct categories |
| `ListPage.GroupStep` | app/list/page.tsx:63-68 | one pass of the loop body creates the group when it is missing and appends the item |
| `ListPage.GroupItems` | app/list/page.tsx:61-70 | the loop returns the categories in order of first appearance, and for each one the items of that category in list order |
| `ListPage.SizeSumSnoc` | app/list/page.tsx:67 | one more item adds one to the total group size when its category is listed |
| `ListPage.NoneInAbsentCategory` | app/list/page.tsx:64 | no item lies in a category that none of them has |
| `ListPage.GroupSizesSum` | app/list/page.tsx:61-70 | every item lands in exactly one group: the group sizes add up to the number of items |
| `Pantry.Max0` | app/pantry/page.tsx:22 | `Math.max(0, x)`: non-negative, at least `x`, and either 0 or `x` |
| `Pantry.UpdatePantryAmount` | app/pantry/page.tsx:16-27 | items with that id get the old amount (missing counts as 0) plus the change, floored at 0; the other items are unchanged |
| `Pantry.UpdateKeepsAmountsNonNegative` | app/pantry/page.tsx:22 | amounts that are non-negative stay non-negative |
| `Pantry.UpdateRoundTrip` | app/pantry/page.tsx:16-27 | +1 then −1 restores an amount; −1 on an empty amount leaves 0 |
| `Pantry.AddToPantry` | app/pantry/page.tsx:29-37 | an existing id has its amount set to 1; otherwise the ingredient is appended, marked in the pantry, with amount 1 |
| `Pantry.AddToPantryPresent` | app/pantry/page.tsx:29-37 | afterwards an item with the ingredient's id is present with amount 1 |
| `Pantry.AddToPantryIdempotent` | app/pantry/page.tsx:29-37 | adding twice is adding once |
| `Pantry.RemoveFromPantry` | app/pantry/page.tsx:39-41 | keeps exactly the items with another id, each as often as in the pantry and in order |
| `Pantry.AvailableIngredients` | app/pantry/page.tsx:68 | the ingredients whose id no pantry item has, each as often as in the list and in order |
| `Pantry.AddedNoLongerOffered` | app/pantry/page.tsx:29-68 | an ingredient just added is no longer offered |
| `Pantry.MatchPercentage` | app/pantry/page.tsx:53 | the rounded percentage is between 0 and 100 and is the nearest integer, halves rounded up; it is 100 exactly when 200·available ≥ 199·total, and positive exactly when 200·available ≥ total |
| `Pantry.MatchPercentageSmall` | app/pantry/page.tsx:53 | below 200 ingredients the score is 100 exactly when nothing is missing, and positive exactly when something is available |
| `Pantry.MatchPercentageLarge` | app/pantry/page.tsx:53 | 199 of 200 available already rounds to 100, and 1 of 201 rounds to 0 |
| `Pantry.MatchOf` | app/pantry/page.tsx:46-63 | the record has the total, the available count (ingredients whose lower-cased name finds a pantry item with a positive amount), the missing count and the percentage |
| `Pantry.MatchesOf` | app/pantry/page.tsx:45-63 | one record per catalogue recipe, in order |
| `Pantry.ScoreDescTotal` | app/pantry/page.tsx:65 | the descending-score comparator is consistent |
| `Pantry.Kept` | app/pantry/page.tsx:64 | exactly the records with a positive score, each as often as among all records and in catalogue order |
| `Pantry.RecipeMatches` | app/pantry/page.tsx:44-66 | a permutation of the records with a positive score |
| `Pantry.RecipeMatchesMembers` | app/pantry/page.tsx:44-66 | a catalogue recipe is listed exactly when its score is positive, and every listed record is that recipe's record |
| `Pantry.RecipeMatchesSorted` | app/pantry/page.tsx:65 | scores do not increase down the list |
| `Pantry.RecipeMatchesStable` | app/pantry/page.tsx:65 | records with equal scores keep catalogue order |
| `RecipeSearch.CategoriesOf` | app/recipes/page.tsx:20 | the category of each recipe, in order |
| `RecipeSearch.AllTags` | app/recipes/page.tsx:21 | the tags that some recipe has |
| `RecipeSearch.AllTagsConcat` | app/recipes/page.tsx:21 | `flatMap` keeps catalogue order: the tags of a joined catalogue are those of the first part followed by those of the second |
| `RecipeSearch.AvailableCategories` | app/recipes/page.tsx:20 | each catalogue category exactly once |
| `RecipeSearch.AvailableTags` | app/recipes/page.tsx:21 | each catalogue tag exactly once |
| `RecipeSearch.OptionsInFirstAppearanceOrder` | app/recipes/page.tsx:20-21 | categories and tags are listed in order of first appearance |
| `RecipeSearch.ThreeRecipesTwoCategories` | app/recipes/page.tsx:20 | three recipes, where the first and last share a category, offer two categories in that order |
| `RecipeSearch.CatalogueCategories` | app/recipes/page.tsx:20 | the catalogue offers "Huvudrätt" and "Efterrätt" |
| `RecipeSearch.PassesIff` | app/recipes/page.tsx:25-59 | a recipe passes exactly when each active filter accepts it. Search matches a name, description, ingredient name or tag, ignoring case. The recipe's category and difficulty must be selected, if any are. The total time must be within a truthy time limit. It must share a tag with a non-empty tag selection. |
| `RecipeSearch.FilteredRecipes` | app/recipes/page.tsx:24-60 | exactly the passing recipes, each as often as in the catalogue and in catalogue order |
| `RecipeSearch.NoActiveFilterKeepsAll` | app/recipes/page.tsx:24-60 | when the filter bar shows no active filter every recipe is listed, in order |
| `RecipeSearch.InitialFiltersKeepAll` | app/recipes/page.tsx:11-17 | the initial filters list every recipe |
| `RecipeSearch.SearchIgnoresCase` | app/recipes/page.tsx:28 | a query and its lower-cased form select the same recipes |
| `RecipeSearch.CategorySelection` | app/recipes/page.tsx:39-41 | selecting one more category never removes a recipe, and a passing recipe has a selected category |
| `RecipeSearch.ThirtyMinutes` | app/recipes/page.tsx:49-51 | a 30-minute limit alone lists only Pannkakor |
| `FilterBar.WithoutValue` | components/filter-bar.tsx:50 | keeps exactly the entries not strictly equal to the value, each as often as before and in order; a number removes nothing |
| `FilterBar.RemoveFilter` | components/filter-bar.tsx:46-65 | the named list loses the value, or `maxTime` becomes null, with the other fields kept; "search" makes no call |
| `FilterBar.RemoveFilterRemovesAll` | components/filter-bar.tsx:46-61 | the removed string no longer occurs, and removing it again changes nothing |
| `FilterBar.ClearAllFilters` | components/filter-bar.tsx:67-76 | the new state has no active filter and a null time limit, and the search field is emptied |
| `FilterBar.InactiveIsCleared` | components/filter-bar.tsx:78-83 | a state has no active filter exactly when it is the cleared state, up to a time limit of 0 |
| `FilterBar.Checked` | components/filter-bar.tsx:120-131 | checking appends the value; unchecking removes every occurrence and keeps every other entry as often as before, in order |
| `FilterBar.CheckThenUncheck` | components/filter-bar.tsx:120-131 | checking then unchecking an unselected value restores the list |
| `FilterBar.CheckCategory` | components/filter-bar.tsx:119-131 | only `categories` changes, to the checkbox update of the old list (`Checked`); afterwards the category is selected exactly when checked |
| `FilterBar.CheckDifficulty` | components/filter-bar.tsx:158-170 | only `difficulties` changes, to the checkbox update of the old list (`Checked`); afterwards the difficulty is selected exactly when checked |
| `FilterBar.CheckTag` | components/filter-bar.tsx:229-241 | only `tags` changes, to the checkbox update of the old list (`Checked`); afterwards the tag is selected exactly when checked |
| `FilterBar.CheckTime` | components/filter-bar.tsx:197-203 | only `maxTime` changes: to the time when checked, to null when unchecked |
| `FilterBar.TimeChoiceReplaces` | components/filter-bar.tsx:194-203 | choosing a second time replaces the first, so at most one time is checked; a chosen time is an active filter |
| `DataTable.CategoryColumn` | components/data-table.tsx:25 | the category of each record, in order |
| `DataTable.Categories` | components/data-table.tsx:25 | each category of the data exactly once |
| `DataTable.LeqTotal` | components/data-table.tsx:34-47 | the comparator is a total preorder on every column whose values have one kind, which is every column but `pantryAmount` |
| `DataTable.PantryAmountNotTotal` | components/data-table.tsx:34-47 | on `pantryAmount` the comparator is not a total preorder: a missing amount ties with 1 and with 5, while 1 sorts before 5 |
| `DataTable.FilteredAndSorted` | components/data-table.tsx:27-50 | a permutation of the records whose lower-cased name contains the lower-cased search and whose category passes the filter |
| `DataTable.NoFilterIsPermutation` | components/data-table.tsx:27-50 | with no search and no category filter, every record is shown |
| `DataTable.SortedByField` | components/data-table.tsx:34-47 | on every column but `pantryAmount`, numeric columns are ascending or descending as chosen and text columns follow `localeCompare` the same way |
| `DataTable.TiesKeepDataOrder` | components/data-table.tsx:34-47 | on every column but `pantryAmount`, records that the column cannot tell apart keep data order |
| `DataTable.NextSort` | components/data-table.tsx:52-59 | clicking selects the clicked field; clicking the current field flips the direction, and another field starts ascending |
| `DataTable.ClickTwice` | components/data-table.tsx:52-59 | two clicks on the same header restore the state after the first |
| `DataTable.Table.constructor` | components/data-table.tsx:20-23 | sorted by name, ascending, with no search and no category filter |
| `DataTable.Table.Shown` | components/data-table.tsx:27-50 | exactly the rows that match the search and category filter, each as often as in the data |
| `DataTable.Table.HandleSort` | components/data-table.tsx:52-59 | the sort state moves as `NextSort` says; the search and the category filter are kept |
| `DataTable.Table.SetSearch` | components/data-table.tsx:20 | only the search changes |
| `DataTable.Table.SetCategoryFilter` | components/data-table.tsx:23 | only the category filter changes |
| `DataTable.ClickTwiceRestores` | components/data-table.tsx:52-59 | two clicks on the current field restore field, direction, search and filter, so the same rows are shown in the same order |
| `StepChecklist.InitialStatesShape` | components/step-checklist.tsx:21-31 | the initial map has an entry for exactly the step ids; each entry is fresh for a step with that id |
| `StepChecklist.InitialStatesDistinct` | components/step-checklist.tsx:21-31 | with distinct ids, each step starts not completed, with its timer off, at its duration in seconds (no duration counts as 0) |
| `StepChecklist.InitialStepStates` | components/step-checklist.tsx:22-30 | the `forEach` loop builds the initial map |
| `StepChecklist.TickOne` | components/step-checklist.tsx:41-50 | a running timer loses one second and, on reaching 0, stops and completes the step; anything else is unchanged |
| `StepChecklist.TickAll` | components/step-checklist.tsx:37-51 | every step is ticked, and no key is added or removed |
| `StepChecklist.IdleTickIsIdentity` | components/step-checklist.tsx:53 | with no running timer, the tick changes nothing |
| `StepChecklist.Tick` | components/step-checklist.tsx:36-54 | the loop reports an active timer exactly when some timer runs; the new state is every step ticked, and it is the old state when none runs |
| `StepChecklist.TickKeepsTimeNonNegative` | components/step-checklist.tsx:41-42 | remaining times stay non-negative |
| `StepChecklist.CountDown` | components/step-checklist.tsx:35-55 | a running timer counts down one second per tick and, once the time is up, it is completed, off and at 0 |
| `StepChecklist.ToggleStepCompletion` | components/step-checklist.tsx:60-69 | a missing id throws; otherwise that step's completion flips and its timer stops, and nothing else changes |
| `StepChecklist.ToggleTimer` | components/step-checklist.tsx:71-79 | a missing id throws; otherwise only that step's `timerActive` flips |
| `StepChecklist.ToggleTimerTwice` | components/step-checklist.tsx:71-79 | toggling the timer twice restores the state |
| `StepChecklist.ToggleCompletionTwice` | components/step-checklist.tsx:60-69 | toggling completion twice restores completion and leaves the timer off |
| `StepChecklist.ResetTimer` | components/step-checklist.tsx:81-90 | the step's timer stops at duration × 60 and its completion is kept; a missing id gets a new, not completed entry; other steps are unchanged |
| `StepChecklist.ResetThenTick` | components/step-checklist.tsx:81-90 | a reset timer does not move on the next tick |
| `StepChecklist.NatToString` | components/step-checklist.tsx:95 | a non-empty string of decimal digits |
| `StepChecklist.PadStart2` | components/step-checklist.tsx:95 | pads to two characters on the left; longer strings are kept |
| `StepChecklist.JsRem` | components/step-checklist.tsx:94 | JavaScript `%`: the Euclidean remainder for non-negative dividends, and smaller than the divisor in size |
| `StepChecklist.ParseNatToString` | components/step-checklist.tsx:95 | reading the printed digits gives the number back |
| `StepChecklist.ParseLeadingZero` | components/step-checklist.tsx:95 | a leading zero does not change the number read |
| `StepChecklist.ShortNumber` | components/step-checklist.tsx:95 | numbers below 100 print in at most two digits |
| `StepChecklist.FormatTimeRoundTrip` | components/step-checklist.tsx:92-96 | for non-negative seconds, the text is minutes, a colon and two digits of seconds; reading them back gives the seconds |
| `StepChecklist.FormatTimeExamples` | components/step-checklist.tsx:92-96 | 300 s shows "5:00", 75 s "1:15" and 9 s "0:09" |
| `Studio.RemoveAt` | app/studio/new/page.tsx:54 | removes the row at a valid index; any other index changes nothing |
| `Studio.MapAt` | app/studio/new/page.tsx:61 | changes the row at the index only |
| `Studio.SetIngredientField` | app/studio/new/page.tsx:61 | the named field gets the value and the other fields are kept |
| `Studio.SetStepField` | app/studio/new/page.tsx:82 | the named field gets the value and the other fields are kept |
| `Studio.SetIngredientFieldToSame` | app/studio/new/page.tsx:61 | writing a field's own value changes nothing |
| `Studio.AddIngredient` | app/studio/new/page.tsx:44-49 | appends a blank "st" ingredient row; nothing else changes |
| `Studio.RemoveIngredient` | app/studio/new/page.tsx:51-56 | removes the row at a valid index; any other index changes nothing |
| `Studio.UpdateIngredient` | app/studio/new/page.tsx:58-63 | only the indexed row's named field changes |
| `Studio.AddStep` | app/studio/new/page.tsx:65-70 | appends a blank step row; nothing else changes |
| `Studio.RemoveStep` | app/studio/new/page.tsx:72-77 | removes the row at a valid index; any other index changes nothing |
| `Studio.UpdateStep` | app/studio/new/page.tsx:79-84 | only the indexed row's named field changes |
| `Studio.AddThenRemoveLast` | app/studio/new/page.tsx:44-77 | adding a row and removing the last row restores the form |
| `Studio.UpdateWithSameValue` | app/studio/new/page.tsx:58-63 | typing a field's current value changes nothing |
| `Studio.AddTag` | app/studio/new/page.tsx:86-94 | the trimmed input is appended and the input cleared when it is non-blank and new; otherwise nothing changes |
| `Studio.RemoveTag` | app/studio/new/page.tsx:96-101 | every occurrence of the tag goes, and the other tags keep their order |
| `Studio.AddTagKeepsTagsDistinct` | app/studio/new/page.tsx:86-94 | tags stay distinct and non-blank |
| `Studio.AddThenRemoveTag` | app/studio/new/page.tsx:86-101 | adding a new tag and removing it restores the form |
| `Studio.AddTagTwice` | app/studio/new/page.tsx:86-94 | adding the same input twice adds it once |
| `Studio.ActionsKeepConsistent` | app/studio/new/page.tsx:28-101 | the page opens with at least one ingredient and one step and distinct non-blank tags, and every action keeps this, since the remove buttons are disabled at one row |
| `Studio.Editor.constructor` | app/studio/new/page.tsx:28-42 | the initial form and an empty tag input |
| `Studio.Editor.Handle` | app/studio/new/page.tsx:44-101 | one user action updates the form and the tag input as the handlers do, and keeps the form consistent |
| `ImportWizard.Rank` | components/excel-import-wizard.tsx:15 | the position of a step in the flow, at most 5 |
| `ImportWizard.RankInjective` | components/excel-import-wizard.tsx:15 | distinct steps have distinct positions |
| `ImportWizard.ProgressOf` | components/excel-import-wizard.tsx:35-66 | progress is 20 per step, between 0 and 100, and 100 exactly at "complete" |
| `ImportWizard.ProgressIncreases` | components/excel-import-wizard.tsx:35-66 | later steps show more progress |
| `ImportWizard.AfterNext` | components/excel-import-wizard.tsx:45-70 | "Next" moves on from "map" and "preview" only, one step forward |
| `ImportWizard.NextActsWhereVisible` | components/excel-import-wizard.tsx:240-244 | the button is shown exactly where it moves the step or closes the dialog |
| `ImportWizard.FindIndex` | components/excel-import-wizard.tsx:100 | `findIndex`: the index of the step, or −1 when absent |
| `ImportWizard.StepNumber` | components/excel-import-wizard.tsx:100 | the counter shows position + 1, and 0 exactly at "complete" |
| `ImportWizard.CompleteShowsNothingDone` | components/excel-import-wizard.tsx:100-112 | at "complete" the counter shows step 0 and no indicator is marked done |
| `ImportWizard.StepNumberIntended` | components/excel-import-wizard.tsx:100 | corrected counter: between 1 and 5; 5 at "complete"; as written elsewhere |
| `ImportWizard.IntendedDisplayMonotone` | components/excel-import-wizard.tsx:100-112 | corrected display: the counter never goes back, every indicator is done at "complete", and it marks done whatever the code as written does |
| `ImportWizard.Wizard.constructor` | components/excel-import-wizard.tsx:18-20 | starts at "upload" with progress 0, no file and nothing pending |
| `ImportWizard.Wizard.FileSelected` | components/excel-import-wizard.tsx:30-43 | no file changes nothing; a file sets its name, moves to "validate" at 20 % and schedules validation |
| `ImportWizard.Wizard.ValidationDone` | components/excel-import-wizard.tsx:38-41 | the validation timer moves to "map" at 40 % |
| `ImportWizard.Wizard.HandleNext` | components/excel-import-wizard.tsx:45-70 | moves as `AfterNext` says, with matching progress; "preview" schedules the import, and "complete" closes the dialog and schedules the reset |
| `ImportWizard.Wizard.ImportDone` | components/excel-import-wizard.tsx:55-58 | the import timer moves to "complete" at 100 % |
| `ImportWizard.Wizard.ResetDone` | components/excel-import-wizard.tsx:63-67 | the reset timer returns to "upload" at 0 % with no file |
| `ImportWizard.HappyPath` | components/excel-import-wizard.tsx:30-70 | a whole import brings a new wizard back to its initial state. The steps are: choosing a file, the validation, "Next" on map and preview, the import (which shows no button), "Close" and the reset |
| `ServingStepper.Decrease` | components/serving-stepper.tsx:13-17 | calls back with one less exactly when above the minimum (default 1) |
| `ServingStepper.Increase` | components/serving-stepper.tsx:19-23 | calls back with one more exactly when below the maximum (default 12) |
| `ServingStepper.IncreaseThenDecrease` | components/serving-stepper.tsx:13-23 | within bounds, + then − and − then + restore the servings |
| `ServingStepper.RunStaysInBounds` | components/serving-stepper.tsx:12-33 | any sequence of clicks keeps in-bounds servings within bounds; by default 1 to 12 |
| `ServingStepper.RunMovesByOne` | components/serving-stepper.tsx:13-23 | each click moves the servings by at most one |
| `Text.LowerChar` | app/planner/page.tsx:64 | lower-cases a capital letter and keeps anything else |
| `Text.LowerChars` | app/planner/page.tsx:64 | `toLowerCase` works character by character |
| `Text.LowerIdempotent` | app/recipes/page.tsx:28 | lower-casing twice is lower-casing once |
| `Text.LowerConcat` | app/recipes/page.tsx:28 | lower-casing distributes over concatenation |
| `Text.TrimStart` | app/list/page.tsx:42 | drops exactly the leading white space |
| `Text.TrimEnd` | app/list/page.tsx:42 | drops exactly the trailing white space |
| `Text.Trim` | app/list/page.tsx:42 | the result is a substring with no white space at either end, and everything cut off before and after it is white space |
| `Text.TrimEmptyIff` | app/list/page.tsx:42 | `trim()` is falsy exactly when the text is all white space |
| `Text.TrimIdempotent` | app/studio/new/page.tsx:87 | trimming twice is trimming once |
| `Text.IncludesTrivial` | components/data-table.tsx:29 | every string includes the empty string and itself |
| `Text.Compare` | components/data-table.tsx:39 | `localeCompare` as a sign, 0 exactly on equal strings |
| `Text.CompareAntisymmetric` | components/data-table.tsx:39 | swapping the arguments flips the sign |
| `Text.CompareTransitive` | components/data-table.tsx:39 | the order is transitive |
| `Seqs.Filter` | app/list/page.tsx:38 | `filter` keeps exactly the elements that pass, and is no longer |
| `Seqs.Dedup` | app/recipes/page.tsx:20 | `Array.from(new Set(s))` holds each element of `s` exactly once |
| `Seqs.DedupFirstOccurrenceOrder` | app/recipes/page.tsx:20 | the distinct elements come in order of first appearance |
| `Seqs.Find` | app/planner/page.tsx:45 | `find` returns a passing element, and none exactly when no element passes |
| `Seqs.FindFirst` | app/planner/page.tsx:45 | `find` returns the first passing element |
| `StableSort.Insert` | app/pantry/page.tsx:65 | inserting adds exactly the one element |
| `StableSort.Sort` | app/pantry/page.tsx:65 | the sort is a permutation |
| `StableSort.SortSorted` | app/pantry/page.tsx:65 | a consistent comparator gives a sorted result |
| `StableSort.SortStable` | app/pantry/page.tsx:65 | elements the comparator calls equal keep their input order |

## Left out

- JavaScript numbers are modelled as unbounded `int` and exact `real`. Floating-point rounding of amounts and scale factors is not modelled, so `Math.round(available / total * 100)` is exact rational rounding.
- `toLowerCase` lower-cases ASCII and Latin-1 capitals only, which covers the app's Swedish text; other Unicode case mappings are not modelled. `localeCompare` is modelled as code-point lexicographic order, since locale collation is not visible in the code.
- `trim` uses the ECMAScript white-space and line-terminator set.
- Object key order is insertion order. JavaScript puts integer-like keys first; ingredient names, categories and step ids that look like integers would reorder `Object.values`, `Object.entries` and `Object.keys`. This is not modelled.
- Object lookups see only the keys the code itself stored; keys inherited from `Object.prototype` are not modelled. In the source, an ingredient named "constructor" or "__proto__" finds a truthy `ingredients[key]` (app/planner/page.tsx:65), so its amount goes to the inherited value and `Object.values` (app/planner/page.tsx:78) never lists it, while `Planner.Add` gives it a line. A shopping item whose category is "constructor", "toString" or "__proto__" makes `groups[...].push` throw (app/list/page.tsx:64-67), while `ListPage.GroupStep` creates the group. A step id such as "toString" reads an inherited function in `toggleStepCompletion` and `toggleTimer` (components/step-checklist.tsx:64 and :74), which writes a new entry instead of throwing, while `StepChecklist.ToggleStepCompletion` and `StepChecklist.ToggleTimer` return none for it.
- Timers (`setTimeout`, `setInterval`) and the filter bar's 300 ms search debounce are events. The import wizard's pending timers are counters that the `...Done` methods consume. `Date.now()` is the `nowId` parameter of `ListPage.AddItem`.
- Rendering, icons, routing, the dialog's open state (a parent callback) and the recipe detail page are not part of this model.
- `mockIngredients` is not part of this model. The pantry and the table take their ingredient list as a parameter.
- `StepChecklist.Tick` models the updater as a pure function. The source copies `prev` shallowly and mutates the shared step objects. If React ran the updater twice (strict mode), a running timer would lose two seconds. The model has no aliasing.
- Repeated step ids are allowed; a later step with the same id overwrites the earlier entry, as in the source. Per-step initial values are stated for distinct ids only.
- `StepChecklist.FormatTime` is stated for non-negative seconds, which is the only range the state reaches. For negative seconds, `JsRem` models the sign of JavaScript `%`, but the text of a negative number is not modelled.
- `Pantry.MatchOf`: a recipe without ingredients would give `NaN` in the source, and `NaN > 0` is false. The model gives 0, which is filtered out the same way.
- The pantry item's `pantryAmount` is an optional number; a missing amount is 0, as `|| 0` reads it.
- `Planner.UnitsNotReconciled` states the general law. The concrete shopping list of the initial two-meal plan is not proved on the constant catalogue.
- Studio: `updateIngredient` and `updateStep` take any field name in the source. The model restricts them to the four ingredient fields and the three step fields the page's inputs use. Other field names would add keys to the row.
- Studio: `addTag` tests membership on the rendered `recipe.tags` and appends to the updater's `prev.tags`. The model reads both from the same state, which holds when no other update is queued.
- Studio: the name, description, category, difficulty, servings, prep-time and cook-time inputs (with `parseInt(...) || 0`) and the image field are not modelled. They set one field each and take part in no property.
- FilterBar: the search input's local state and its debounced copy into the filters are not modelled as a state machine; the filters' `search` field is set directly.
- DataTable.LeqTotal, DataTable.SortedByField, DataTable.TiesKeepDataOrder: stated for every column except `pantryAmount`. That column mixes numbers with missing amounts, which the comparator at components/data-table.tsx:34-47 ties with everything, so it is not a total preorder (`DataTable.PantryAmountNotTotal`). For such a comparator ECMAScript leaves the order of `sort` implementation-defined; the model's order there is one possible outcome, and only the rows and their multiplicity are promised. The headers sort only by name, category and calories (components/data-table.tsx:109, :118 and :127).
- DataTable: `DataTable.IngredientData` and `Pantry.PantryItem` model the one record type `IngredientData`, each with the fields its page reads; the library file that declares it is not part of this model.
- `ListPage.CategoriesOf`, `RecipeSearch.CategoriesOf` and `DataTable.CategoryColumn` are the same `map(x => x.category)` over three different record types; they are kept as three small definitions so that the proofs can index them directly.

## Findings

| source | as written | input that shows it | evidently intended | confidence | as-written member | corrected member |
|---|---|---|---|---|---|---|
| components/excel-import-wizard.tsx:100-112 | The counter shows `findIndex(currentStep) + 1`, and the indicators are marked done when `findIndex(currentStep) > index`. The `steps` list has no "complete" entry, so `findIndex` returns −1 there. | `currentStep = "complete"`: the dialog shows "Steg 0 av 5" at 100 % progress, and none of the five indicators is marked done. | At "complete", show "Steg 5 av 5" with all five indicators done. The display never moves backwards. | not executed | `ImportWizard.CompleteShowsNothingDone` | `ImportWizard.IntendedDisplayMonotone` |
