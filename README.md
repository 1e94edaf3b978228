# Budget ledger of the expense tracker, in Dafny

This project models the budget ledger of a Laravel expense-tracking API. A user
records expenses under named categories, sets a budget per category, and gets a
report grouped by category. The model covers two controllers:

- `BudgetController`: list the caller's categories with their budgets, create or
  update a budget by category name, and delete a budget (and, under conditions,
  its category).
- `ExpenseController`: record an expense against the category's budget, show,
  update, delete and list the caller's expenses, and build the analytics report.

The database is a class, `Ledger.Database`. Its fields hold:

- the three tables `categories`, `budgets` and `expenses`, as sequences of rows
  in id order;
- the auto-increment counters of those tables.

Its invariant `Valid()` states the integrity the controllers keep between them:

- ids increase and stay below the counter;
- no user has two categories of the same name;
- every budget satisfies `remaining == amount - spent`;
- no user has two budgets on one category;
- every non-null `budgets.category_id` names an existing category;
- every non-null `expenses.category_id` names a category of the expense's owner.

The controller actions that write (`store`, `update`, `destroy`) are methods that
take the database and the authenticated user's id. Their postconditions state the
response and the exact new contents of every table. Every one of them preserves
`Valid()`.

The read-only actions (`show`, both `index` actions) are functions on the tables.
`analytics` is a method whose loop accumulates the four overall totals. Its
result is tied to a functional model of Laravel's `groupBy`.

Amounts are the `decimal(10,2)` columns counted in whole cents. Expense dates are
opaque strings. HTTP statuses are the values of `Schema.Status`. The authenticated
user, the request body and the `page` query parameter are parameters.

`scenarios.dfy` holds clients that drive the controllers through the life of a
budget, step by step:

- create a budget;
- spend within it;
- be refused when overspending;
- spend freely on a category with no budget;
- lower a budget below what was spent;
- delete an expense without a refund;
- delete the last budget of a category;
- fail to delete another user's budget.

### Quirks of the code the model reproduces

- **Category lookup in `BudgetController::store` is not per user.**
  `BudgetController.php:65-68` calls `Category::firstOrCreate` with only the
  `name` in the search attributes, so the lookup runs over every user's
  categories. A category is created for the caller only when no user has one of
  that name. A budget can therefore hang on another user's category.
  `ExpenseController::store` does resolve per user (`ExpenseController.php:102`).
  So the same name can lead to two different categories in the two controllers.
- **Deleting a budget does not fail with a uniform not-found.** A missing id, or
  one that names no budget at all, fails validation with 422. This is because
  `validate()` is outside the `try` (`BudgetController.php:106-108`). Another
  user's budget makes `firstOrFail` throw inside the `try`, and the general
  handler turns that into 500 (`BudgetController.php:114-116`, `:134-138`).
- **The category removed with a budget belongs to the caller only.** After
  deleting the budget, the category is deleted only when the caller owns it
  (`BudgetController.php:129`). A budget on another user's category leaves that
  category in place.
- **Deleting a category sets references to null, for everyone.** The
  foreign keys' `onDelete('set null')` applies to every budget and expense that
  pointed at the category, including other users' rows.
- **The expense list answers 404 for any empty page, not only the first.**
  `ExpenseController.php:36-38` tests the page actually served.
- **No budget delta is reversed.** Expense `update` and `destroy` leave `spent`
  and `remaining` as they were. A budget can also be lowered below what was
  already spent, which leaves `remaining` negative (`Schema.Reprice`,
  `Scenarios.RepriceBelowSpent`).

## Model

| member | source | states |
|---|---|---|
| `Schema.Charge` | app/Http/Controllers/ExpenseController.php:113-116 | booking an expense adds exactly its amount to `spent`, leaves the budget balanced, lowers `remaining` by the amount, and keeps `remaining` non-negative when the amount was at most `remaining` |
| `Schema.Reprice` | app/Http/Controllers/BudgetController.php:76-82 | a new limit replaces `amount`, keeps `spent`, leaves the budget balanced, and makes `remaining` negative exactly when more than the new limit was already spent |
| `Schema.CategoryNamed` | app/Http/Controllers/BudgetController.php:65-68 | the first category of ANY user with that name, or none when no category has it |
| `Schema.UserCategoryNamed` | app/Http/Controllers/ExpenseController.php:102 | a category of the given user with that name, or none when the user has none |
| `Schema.CategoryWithId` | app/Http/Controllers/ExpenseController.php:32 | the category row with that key, or none when no row has it |
| `Schema.UserCategoryWithId` | app/Http/Controllers/BudgetController.php:129 | the category row with that key if the user owns it, or none |
| `Schema.UserBudgetFor` | app/Http/Controllers/ExpenseController.php:105 | the user's first budget on that category (on a null category, a budget whose category was deleted), or none when the user has none |
| `Schema.BudgetWithId` | app/Http/Controllers/BudgetController.php:107 | the budget row with that key, whoever owns it, or none |
| `Schema.UserBudgetWithId` | app/Http/Controllers/BudgetController.php:114-116 | the budget row with that key if the user owns it, or none |
| `Schema.UserExpenseWithId` | app/Http/Controllers/ExpenseController.php:142 | the expense row with that key if the user owns it, or none |
| `Schema.OwnedBy` | app/Http/Controllers/ExpenseController.php:241-243 | exactly the user's expenses: each result row is an expense of the user, each expense of the user is in the result, and the result is no longer than the table |
| `Schema.OwnedByCounts` | app/Http/Controllers/ExpenseController.php:241-243 | each of the user's rows appears in the result exactly as often as in the table, and no other row appears |
| `Schema.OwnedByAppend` | app/Http/Controllers/ExpenseController.php:241-243 | the result keeps table order: filtering two consecutive stretches of the table gives the first stretch's rows followed by the second's |
| `Ledger.ClearBudgetCategory` | database/migrations/2024_11_05_071711_add_category_id_to_expenses_and_budgets.php:19 | after the delete no budget refers to the category; every other column and every other row is unchanged |
| `Ledger.ClearExpenseCategory` | database/migrations/2024_11_05_071711_add_category_id_to_expenses_and_budgets.php:15 | after the delete no expense refers to the category; every other column and every other row is unchanged |
| `Ledger.ClearKeepsBudgetRefs` | database/migrations/2024_11_05_071711_add_category_id_to_expenses_and_budgets.php:19 | deleting a category and nulling the budgets' references to it leaves every remaining budget reference pointing at an existing category |
| `Ledger.ClearKeepsExpenseRefs` | database/migrations/2024_11_05_071711_add_category_id_to_expenses_and_budgets.php:15 | deleting a category and nulling the expenses' references to it leaves every remaining expense reference pointing at a category of the expense's owner |
| `Ledger.FreshCategoryUnbudgeted` | app/Http/Controllers/ExpenseController.php:102-105 | no budget refers to the id the next created category receives, so a just-created category has no budget |
| `Ledger.Database.constructor` | database/migrations/2024_11_05_071711_add_category_id_to_expenses_and_budgets.php:12-21 | the empty ledger: no rows in any table, every key sequence starting at 1, and the integrity invariant (keys, ownership, one budget per category, balanced budgets, references to existing categories) holding |
| `Ledger.Database.InsertCategory` | app/Http/Controllers/BudgetController.php:65-68 | the create half of `firstOrCreate`: a row with the next id appended; the invariant is kept because the owner has no category of that name |
| `Ledger.Database.SaveBudget` | app/Http/Controllers/ExpenseController.php:116 | `save()` of a balanced budget row with the same key, owner and category keeps the invariant |
| `Ledger.Database.InsertBudget` | app/Http/Controllers/BudgetController.php:85-91 | `Budget::create`: a row with the next id appended; the invariant is kept because the user had no budget on that existing category |
| `Ledger.Database.DeleteBudget` | app/Http/Controllers/BudgetController.php:122 | the row is removed and the invariant is kept |
| `Ledger.Database.DeleteCategory` | database/migrations/2024_11_05_071711_add_category_id_to_expenses_and_budgets.php:14-20 | the row is removed, the references to it in budgets and expenses are set to null, and the invariant is kept |
| `Ledger.Database.InsertExpense` | app/Http/Controllers/ExpenseController.php:120-125 | `create` of an expense on a category its owner owns: a row with the next id appended; the invariant is kept |
| `Ledger.Database.SaveExpense` | app/Http/Controllers/ExpenseController.php:169 | `update()` of an expense row with the same key, owner and category keeps the invariant |
| `Ledger.Database.DeleteExpense` | app/Http/Controllers/ExpenseController.php:302 | the row is removed and the invariant is kept |
| `BudgetController.ValidBudgetRequest` | app/Http/Controllers/BudgetController.php:53-56 | the validation rules of `store`: a present, non-empty name of at most 255 characters and a present, non-negative amount |
| `BudgetController.BudgetOf` | app/Http/Controllers/BudgetController.php:30-32 | the category's budget as seen by the caller: one of the caller's budgets on that category, or none when the caller has none |
| `BudgetController.Index` | app/Http/Controllers/BudgetController.php:23-45 | the caller's categories and only those, every one of them present, each paired with the caller's budget on it |
| `BudgetController.IndexCounts` | app/Http/Controllers/BudgetController.php:29-33 | each of the caller's categories is listed as often as it occurs in the table (once, since keys are unique), and no other user's category is listed |
| `BudgetController.IndexAppend` | app/Http/Controllers/BudgetController.php:29-33 | the listing keeps table order: listing two consecutive stretches of the table gives the first stretch's entries followed by the second's |
| `BudgetController.Store` | app/Http/Controllers/BudgetController.php:49-100 | invalid input gives 422 and changes nothing; otherwise the category is found by name among all users' categories or created for the caller, the caller's budget on it is repriced (200) or a budget with nothing spent is created (201), expenses are untouched, and the invariant is kept |
| `BudgetController.NoSiblingBudget` | app/Http/Controllers/BudgetController.php:119-130 | once a budget on a category is deleted the user has no other budget on it, so the "other budgets" test never finds one |
| `BudgetController.Destroy` | app/Http/Controllers/BudgetController.php:103-139 | a missing or unknown id gives 422 and another user's budget 500, both changing nothing; otherwise the budget is deleted and, exactly when the caller owns its category, the category is deleted and every reference to it set to null |
| `ExpenseController.ValidExpenseRequest` | app/Http/Controllers/ExpenseController.php:92-97 | the validation rules of `store`: a present, non-empty category name of at most 255 characters, a present, non-negative amount and a present date; the description may be absent |
| `ExpenseController.EmptyPatch` | app/Http/Controllers/ExpenseController.php:159-165 | `$request->only([...])` found none of `category`, `amount`, `expense_date` and `description`, the case `update` refuses with 422 |
| `ExpenseController.ApplyPatch` | app/Models/Expense.php:13-19 | the supplied fillable columns are written and every other column, the category included, keeps its value |
| `ExpenseController.PatchIgnoresCategory` | app/Http/Controllers/ExpenseController.php:159-169 | supplying `category` in an update has no effect, and applying an update twice equals applying it once |
| `ExpenseController.View` | app/Http/Controllers/ExpenseController.php:142 | the expense with its eager-loaded category: the category row it refers to, or null when it has none or the row is gone |
| `ExpenseController.FirstOrCreateOwnCategory` | app/Http/Controllers/ExpenseController.php:102 | the caller's category of that name when there is one, with nothing written; otherwise a new category with the next id, appended; the result is owned by the caller and has that name, and a created one has no budget; the invariant is kept |
| `ExpenseController.Store` | app/Http/Controllers/ExpenseController.php:88-136 | invalid input gives 422 and changes nothing; the category is the caller's own (found or created); with a caller's budget on it, an amount above `remaining` gives 400 and changes nothing, otherwise the amount is charged to that budget; the expense is appended (201) and the invariant is kept |
| `ExpenseController.Show` | app/Http/Controllers/ExpenseController.php:140-149 | 404 exactly when the caller owns no expense with that id; otherwise that expense with its category |
| `ExpenseController.Update` | app/Http/Controllers/ExpenseController.php:155-186 | 404 when the caller owns no such expense and 422 for an empty update, both changing nothing; otherwise only that row changes, by the update; budgets are never touched |
| `ExpenseController.Destroy` | app/Http/Controllers/ExpenseController.php:296-305 | 404 when the caller owns no such expense, changing nothing; otherwise only that row is removed; budgets are never touched |
| `ExpenseController.CurrentPage` | app/Http/Controllers/ExpenseController.php:34 | the requested page when it is a positive integer, page 1 otherwise |
| `ExpenseController.PageOf` | app/Http/Controllers/ExpenseController.php:34 | page `p` is the at most ten consecutive items starting at item `(p-1)*10`; it is empty exactly when there are no items that far, and full when there are enough |
| `ExpenseController.ItemOnItsPage` | app/Http/Controllers/ExpenseController.php:34 | every item appears on a page: item `k` is entry `k % 10` of page `k / 10 + 1` |
| `ExpenseController.Index` | app/Http/Controllers/ExpenseController.php:29-41 | 404 exactly when the requested page of the caller's expenses is empty; otherwise that page, each expense with its category, only the caller's expenses |
| `ExpenseAnalytics.GroupKey` | app/Http/Controllers/ExpenseController.php:242-244 | the key of an expense is null when its category id is null or names no category row, and otherwise the name of a category row with that id |
| `ExpenseAnalytics.SumAmounts` | app/Http/Controllers/ExpenseController.php:254 | `sum('amount')` of a group; it is non-negative whenever no member amount is negative (`store` validates `min:0`, `update` does not, so a stored amount may be negative) |
| `ExpenseAnalytics.Insert` | app/Http/Controllers/ExpenseController.php:244 | one step of `groupBy` leaves at least one group and opens at most one new one |
| `ExpenseAnalytics.GroupBy` | app/Http/Controllers/ExpenseController.php:244 | `groupBy('category.name')` gives no more groups than expenses, and no groups exactly when there are no expenses (the full partition is `GroupByCovers`) |
| `ExpenseAnalytics.InsertNewKey` | app/Http/Controllers/ExpenseController.php:244 | an expense under a key no group has opens a new group after all the existing groups |
| `ExpenseAnalytics.InsertExistingKey` | app/Http/Controllers/ExpenseController.php:244 | an expense under a key some group already has opens no group, and every group keeps its key at its index |
| `ExpenseAnalytics.InsertMembers` | app/Http/Controllers/ExpenseController.php:244 | adding an expense under a key appends it to that key's group and changes no other group |
| `ExpenseAnalytics.InsertKeys` | app/Http/Controllers/ExpenseController.php:244 | adding an expense keeps every group non-empty and opens no group under a key other than its own |
| `ExpenseAnalytics.InsertDistinct` | app/Http/Controllers/ExpenseController.php:244 | adding an expense keeps the group keys distinct |
| `ExpenseAnalytics.InsertTotals` | app/Http/Controllers/ExpenseController.php:244 | adding an expense adds its amount exactly once to the sum over all groups and one to their total size |
| `ExpenseAnalytics.GroupByNewKey` | app/Http/Controllers/ExpenseController.php:244 | an expense whose key no earlier expense has opens a new group after all the earlier ones |
| `ExpenseAnalytics.GroupByExistingKey` | app/Http/Controllers/ExpenseController.php:244 | an expense whose key an earlier expense has opens no group and moves none; with `GroupByNewKey`, groups appear in the order of their first expense |
| `ExpenseAnalytics.GroupByMembers` | app/Http/Controllers/ExpenseController.php:241-244 | the group of a key holds exactly the expenses with that key, in their original order |
| `ExpenseAnalytics.GroupByShape` | app/Http/Controllers/ExpenseController.php:241-244 | the groups have distinct keys, none is empty, and together they hold every expense once: their sums add up to the total and their sizes to the count |
| `ExpenseAnalytics.GroupByCovers` | app/Http/Controllers/ExpenseController.php:241-244 | `groupBy` as a whole: distinct keys, no empty group, each group exactly the expenses with its key, a group for every expense, and the groups' sums add up to the sum of all expenses |
| `ExpenseAnalytics.MembersOfGroup` | app/Http/Controllers/ExpenseController.php:244 | with distinct keys, looking a group up by its key finds that group |
| `ExpenseAnalytics.MembersOfFound` | app/Http/Controllers/ExpenseController.php:244 | a key with members has a group |
| `ExpenseAnalytics.InOwnGroup` | app/Http/Controllers/ExpenseController.php:244 | every expense is selected under its own key |
| `ExpenseAnalytics.WithKeyMembers` | app/Http/Controllers/ExpenseController.php:244 | everything selected under a key is an input expense with that key |
| `ExpenseAnalytics.KeyOfCategorised` | app/Http/Controllers/ExpenseController.php:242-244 | in a ledger that keeps its invariant, an expense with a category is grouped under the name of a category its owner owns |
| `ExpenseAnalytics.SameKeySameCategory` | app/Http/Controllers/ExpenseController.php:241-244 | in a ledger that keeps its invariant, two expenses of one user under one group key have the same category: grouping by name is grouping by category |
| `ExpenseAnalytics.GroupBudget` | app/Http/Controllers/ExpenseController.php:255-260 | the budget found through the group's first expense: one of the caller's budgets on that expense's category, or none when the caller has none there (null category matching a null-category budget) |
| `ExpenseAnalytics.RowOf` | app/Http/Controllers/ExpenseController.php:268-276 | the row of one group: its key and expenses, their count, and the three budget figures present together exactly when a budget was found; in a balanced ledger `remaining_budget` is `budget_amount` minus `spent_budget` |
| `ExpenseAnalytics.RowBudgetOfEveryMember` | app/Http/Controllers/ExpenseController.php:255-260 | the budget a row reports, looked up through the group's first expense, is the caller's budget on the category of every expense in the group |
| `ExpenseAnalytics.ColumnSumSnoc` | app/Http/Controllers/ExpenseController.php:263-266 | one more row adds its cell to the sum of a column, a null budget figure counting 0 |
| `ExpenseAnalytics.RowsOf` | app/Http/Controllers/ExpenseController.php:253 | `map` gives exactly one row per group |
| `ExpenseAnalytics.RowsOfIndex` | app/Http/Controllers/ExpenseController.php:253-277 | row `i` of the report is the row built from group `i` |
| `ExpenseAnalytics.RowsOfKeys` | app/Http/Controllers/ExpenseController.php:268-275 | row `i` carries the key and the expenses of group `i` |
| `ExpenseAnalytics.RowsOfSnoc` | app/Http/Controllers/ExpenseController.php:253 | mapping one more group appends its row and leaves the earlier rows as they were |
| `ExpenseAnalytics.SumGroupsSnoc` | app/Http/Controllers/ExpenseController.php:254 | one more group adds the sum of its members to the sum over all groups |
| `ExpenseAnalytics.RowTotalsSum` | app/Http/Controllers/ExpenseController.php:254-263 | the rows' `total_amount` values add up to the sum over all groups' members |
| `ExpenseAnalytics.ReportRowsGroups` | app/Http/Controllers/ExpenseController.php:241-253 | every row is non-empty and holds exactly the caller's expenses with its category name; no two rows share a name; every expense of the caller has a row |
| `ExpenseAnalytics.ReportRowsFigures` | app/Http/Controllers/ExpenseController.php:254-276 | each row carries its sum, its count, and the amount, remaining and spent of the budget looked up for it, null when there is none |
| `ExpenseAnalytics.Summarize` | app/Http/Controllers/ExpenseController.php:247-277 | the loop over the groups yields the rows of the groups in order, and each of the four overall totals is the sum of its column over those rows, a missing budget counting 0 |
| `ExpenseAnalytics.Analytics` | app/Http/Controllers/ExpenseController.php:235-285 | the report's rows are the rows of the groups of the caller's expenses (their meaning is `ReportRowsGroups` and `ReportRowsFigures`); the overall expense total is the sum of all the caller's expenses; each overall total is the sum of its column, a missing budget counting 0 |

## Left out

- `Schema.CategoryNamed` compares category names exactly (binary, case- and
  space-sensitive). The source's lookups are SQL `where name = ?` queries
  (`BudgetController.php:65-68`, `ExpenseController.php:102`), whose matching
  depends on the column's collation. Under a case-insensitive collation "food"
  finds "Food" and trailing spaces are ignored; the model would create a second
  category instead. Collations are not modelled.
- `Schema.UserCategoryNamed` makes the same exact comparison, for the per-user lookup.
- `Ledger.NamesUniquePerUser` states uniqueness under exact equality. Under a
  case-insensitive collation, uniqueness would hold up to case folding.
- Authentication is left out: the user id is a parameter. So are the session and
  `Auth::user()`, logging, and the JSON and HTTP framing (messages, pagination
  metadata, headers).
- The responses for database failures are left out: the 500 that `store`,
  `update`, `index` and `analytics` give when the database throws. The model's
  store never fails.
- `ExpenseController.Update`: the 500 branch taken when `update()` returns false
  is not modelled. Eloquent returns true whenever the row can be written.
- `ExpenseController.Update`: an explicit null for `amount` or `expense_date`
  would be refused by the database with 500. The patch type cannot express it.
  Only `description` may be set to null.
- Concurrency is left out: two requests racing on `firstOrCreate`, or on the
  read-check-write of `remaining`. Each action runs alone on the database.
- `ValidBudgetRequest` and `ValidExpenseRequest`: the `date` rule is not
  checked, and neither is the trimming of strings before `required`. A date is
  an opaque string; a required string is present and non-empty.
- Amounts are whole cents. PHP's numeric strings and float arithmetic on
  `decimal` columns are not modelled.
- `BudgetController.Store`: `firstOrCreate` runs outside the `try`, so a database
  failure there would not be turned into the 500 answer. Since the model's store
  never fails, that difference does not show.
- The order of rows in an unordered query is taken to be id order, which is the
  order the tables are kept in.
- `ExpenseAnalytics.Analytics`: it reads `GroupKey` of an expense whose category
  is null as a key of its own. Laravel files it under the empty string. No
  category has an empty name, because names are required, so the groups are the
  same.
