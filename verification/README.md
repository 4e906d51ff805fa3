# Budget ledger, modelled in Dafny

This project models the ledger core of the bridger budgeting backend, a
Django REST service. The core is the request handlers in `base/urls/api.py`
and the four records they read and write (`Income`, `Budget`, `Category`,
`Savings` in `base/models.py`). The model covers:

- income entries: create, partial update, delete, and the filtered list;
- budgets: create (one per income entry), whitelisted update, delete;
- categories: the oracle-driven reconciliation of `CategoryCreateView.post`
  and `CategoryUpdateView.put`;
- savings goals: update, list and delete, including the move of a deleted
  goal's categories into the budget's `Extra` category.

The whole database is one immutable value, `Ledger.Ledger`, with one table
per record. A table (`Tables.Store`) maps keys to rows and remembers the next
key it will hand out. Every handler is a pure function from a ledger and a
request to an `Outcome`: the new ledger, or the failure that left the ledger
as it was. Money is integer cents (`Decimals.Cents`).

Category and goal names are not unique. Where the source takes "the first"
of several rows with a name (`next(...)`, `.first()`), the model takes the
row with the lowest key; where it uses `get_or_create`, two rows with the
name make the request fail with a server error, as `MultipleObjectsReturned`
would.

The language model the category handler calls ("the oracle") is an input:
the handler is given the sequence of its replies, and `generate_description`
is a parameter `describe: string -> string`.

Modules follow the source:

| module | what it holds |
|---|---|
| `Wrappers`, `Tables`, `Text`, `Decimals` | results and options; keyed tables with ordered scans; the string operations the handlers use (`strip`, `split`, `join`, `endswith`, `icontains`); decimal text to cents and back |
| `Ledger` | the records, ownership, cascading deletes |
| `Incomes`, `Budgets`, `Categories`, `SavingsGoals` | one function per handler |
| `OracleText` | parsing the oracle's reply, the retry loop, the prompt's listing of existing categories |
| `Reconcile` | classification and the write phase of `CategoryCreateView.post`, `handle_savings`, `handle_savings_deletion` |
| `ReconcileFacts`, `ReconcileSaves`, `ReconcileMirror`, `ReconcileOutcome` | what that write phase does to each category and savings goal |
| `SavingsFacts` | what deleting a goal does to each category and to each budget's total |

## Model

| member | source | states |
|---|---|---|
| `Ledger.DropIncomes` | base/models.py:107-110 | deleting income entries removes exactly them, exactly the budgets that reference them and exactly those budgets' categories; every surviving income, budget and category keeps its values; savings goals stay; a consistent ledger stays consistent |
| `Ledger.DeleteIncomeCascade` | base/models.py:109 | deleting one income entry removes exactly it, exactly its budgets and exactly their categories; every surviving row keeps its values; savings goals stay; consistency is kept |
| `Ledger.DeleteBudgetCascade` | base/models.py:151-152 | deleting a budget removes exactly it and its categories; every surviving budget and category keeps its values; incomes and savings goals are unchanged; consistency is kept |
| `Ledger.DeleteUserCascade` | base/models.py:64-65 | deleting a user removes exactly their income entries, exactly the budgets they own with those budgets' categories, and exactly their savings goals; every surviving row keeps its values; consistency is kept |
| `Incomes.CheckRange` | base/urls/api.py:26-35 | a submitted amount fails exactly when it is not a number or lies outside 1000.00 .. 1 000 000 000.00; out of range is reported as such; a missing or null amount passes |
| `Incomes.CreateIncome` | base/urls/api.py:19-44 | creation succeeds exactly when an amount is given, lies in range and fits `max_digits=10`, and a source that is not blank is given; out-of-range amounts get their own error, checked before the source; the new entry is the caller's, under a fresh key, with the submitted amount, source and description, dated today unless a date was given; every other row is unchanged |
| `Incomes.CreateIncomeAcceptedAmounts` | base/models.py:66-67 | with a source that is not blank, the accepted amounts are exactly 1000.00 .. 99 999 999.99: the column's precision, not the handler's upper bound, limits them |
| `Incomes.UpdateIncome` | base/urls/api.py:100-119 | a missing entry is NotFound and another user's is Forbidden; the update succeeds exactly for the caller's entry with an amount that passes the range check, is not null and fits the column, and a source that is not blank if one is sent; only that entry changes; each field, the owner included, takes the submitted value or keeps its old one |
| `Incomes.DeleteIncome` | base/urls/api.py:148-157 | a missing entry is NotFound; deletion succeeds exactly for the caller's entry; the entry, exactly its budgets and exactly their categories go; every surviving row keeps its values; savings goals stay; consistency is kept |
| `Incomes.ListIncomes` | base/urls/api.py:63-68 | the list holds exactly the caller's entries whose source or description contains the query, ignoring case (every entry for a missing or empty query), in key order |
| `Budgets.CreateBudget` | base/urls/api.py:171-202 | a missing income entry is NotFound; one that already has a budget is refused before ownership is checked; creation succeeds exactly for the caller's unbudgeted entry with a name that is not blank and an end date; the new budget has that name, end date and description, starts today and copies the income amount; nothing else changes; consistency is kept |
| `Budgets.CreateBudgetOnce` | base/urls/api.py:184-185 | once a budget exists for an income entry, any second request for that entry is refused |
| `Budgets.EditBudget` | base/urls/api.py:609-612 | an edit succeeds exactly when a sent name is non-blank text, a sent end date a date and a sent description text or null; each sent field takes the sent value and every other field keeps its own; income, `totalExpenses` and start date never change |
| `Budgets.UpdateBudget` | base/urls/api.py:591-615 | a missing budget is NotFound and another user's is Forbidden; the update succeeds exactly for the caller's budget when the whitelisted keys are acceptable, and stores the edited budget; only that budget changes, and never its income or `totalExpenses` |
| `Budgets.UpdateBudgetIgnoresOtherKeys` | base/urls/api.py:603-609 | adding keys outside the whitelist never changes the outcome |
| `Budgets.UpdateBudgetRename` | base/urls/api.py:601-612 | a request that sends a non-blank name, whatever other non-whitelisted keys it carries, renames the caller's budget and changes nothing else in the ledger |
| `Budgets.DeleteBudget` | base/urls/api.py:215-226 | a missing budget is NotFound; deletion succeeds exactly for the caller's budget; exactly it and its categories go; every surviving budget and category keeps its values; incomes and savings goals are unchanged; consistency is kept |
| `Categories.EditCategory` | base/urls/api.py:670-673 | an edit fails exactly on a null name; it sets the submitted name and description, keeping the old ones for fields left out, and never changes budget, amount or deletion flag |
| `Categories.UpdateCategory` | base/urls/api.py:660-676 | a missing category is NotFound and one of another user's budget is Forbidden; success exactly for an owned category and a name that is not null; the row becomes the edited category, so it changes only in name and description; no other row changes; consistency is kept |
| `Categories.UpdateCategorySame` | base/urls/api.py:660-676 | submitting a category's own name and description leaves the ledger as it was |
| `Decimals.FormatParseRoundTrip` | base/urls/api.py:393 | an amount written as a two-place decimal reads back as the same amount |
| `Decimals.ParseSignedLiteral` | base/urls/api.py:438 | a minus sign in front of an unsigned decimal literal negates the value read |
| `OracleText.ParseLineShape` | base/urls/api.py:434-437 | a line that parses had exactly one colon, and its name is stripped and free of colons |
| `OracleText.ParseLinesClean` | base/urls/api.py:432-443 | every name parsed from lines without line breaks is stripped and holds no colon or line break |
| `OracleText.ParseReplyClean` | base/urls/api.py:432-443 | every name parsed from a reply is stripped and holds no colon or line break |
| `OracleText.ParseLinesAppend` | base/urls/api.py:433-439 | the pairs of two runs of lines are the pairs of the first run followed by those of the second |
| `OracleText.RenderedLineParses` | base/urls/api.py:393 | a listing line `name: amount` parses back into that name and amount |
| `OracleText.ListingLinesParse` | base/urls/api.py:393 | listing lines parse back into the categories' pairs, in order |
| `OracleText.ListingRoundTrip` | base/urls/api.py:393 | a reply that repeats the prompt's listing unchanged parses back into exactly the listed names and amounts |
| `OracleText.Retry` | base/urls/api.py:398-450 | the loop returns either pairs from a round whose non-empty sum reached the target, or the previous round when its sum already exceeded the target; it fails only on a round without pairs or when the rounds run out |
| `OracleText.RetryForgetsLast` | base/urls/api.py:430 | while the total is within the target, the previous round plays no part |
| `OracleText.RetryStep` | base/urls/api.py:444-450 | a round without pairs fails; a round whose sum reaches the target is taken; a shorter one is retried |
| `OracleText.RetryExit` | base/urls/api.py:398-450 | a success returns the first round that reaches the target |
| `OracleText.RetryTakesFirst` | base/urls/api.py:398-450 | the first round that reaches the target, with no earlier empty round, is returned |
| `OracleText.RetryUnparsable` | base/urls/api.py:444-445 | an empty round before any round reaches the target fails with UnparsableReply |
| `OracleText.RetryExhausted` | base/urls/api.py:398 | rounds that all fall short never end the loop |
| `Reconcile.Describe` | base/urls/api.py:498-505 | a description is never empty and has no surrounding whitespace; it is the stripped reply or the fallback text |
| `Reconcile.DescribeKeepsReply` | base/urls/api.py:504-505 | the stripped reply is the description whenever it is not empty, so the fallback is used only for an empty reply |
| `Reconcile.Match` | base/urls/api.py:462 | the match is the budget's category with exactly that name and the lowest key, and none exists when it finds none |
| `Reconcile.EffectOf` | base/urls/api.py:456-480 | a line marks the category its deletion name refers to, amends the category it names, creates a new row for a name that matches nothing, or does nothing for a deletion of a missing category |
| `Reconcile.SaveCopy` | base/urls/api.py:485 | saving a copy updates its row in place, or inserts it under a fresh key once it has been deleted; no other row changes |
| `Reconcile.Goal` | base/urls/api.py:535 | the goal is the caller's goal with exactly that name and the lowest key, and none exists when it finds none |
| `Reconcile.Debit` | base/urls/api.py:533-538 | the debit fails exactly when a goal matches and the category's amount is null; otherwise only the matched goal changes, losing the category's amount with no floor |
| `Reconcile.PurgeOne` | base/urls/api.py:483-487 | one deletion saves the copy, debits the goal and deletes the row; it fails exactly when the debit does |
| `Reconcile.CreateCategories` | base/urls/api.py:376-496 | a missing budget or description is refused before anything else; then a missing budget is NotFound and another user's is Forbidden; success needs the caller's budget; incomes and budgets never change |
| `ReconcileFacts.PurgeFails` | base/urls/api.py:483-487 | the deletion loop fails exactly when some marked category's debit raises |
| `ReconcileMirror.SyncNext` | base/urls/api.py:521-531 | the key counter advances by exactly the number of lines that create goals; updating a loaded goal does not move it |
| `ReconcileMirror.SyncOpens` | base/urls/api.py:509-531 | each line naming an unknown savings goal leaves the goal it creates under its own key: the first key not used before, plus the number of earlier lines that created goals |
| `ReconcileMirror.SyncOpensApart` | base/urls/api.py:509-531 | two lines that create goals get different keys, the earlier line the lower one, so two identical such lines make two goals |
| `ReconcileMirror.SyncLast` | base/urls/api.py:515-520 | a goal that lines set ends with the last such line's amount and a fresh description |
| `ReconcileOutcome.EffectMeaning` | base/urls/api.py:459-472 | a line marks a category exactly when it deletes it, and amends it exactly when it updates it |
| `ReconcileOutcome.PlanMarked` | base/urls/api.py:459-465 | a category is queued for deletion exactly when a deletion line refers to it |
| `ReconcileOutcome.PlanUpdated` | base/urls/api.py:466-472 | a category is queued for saving exactly when another line names it |
| `ReconcileOutcome.PlanBudget` | base/urls/api.py:474-480 | every copy and every new category belongs to the request's budget |
| `ReconcileOutcome.ReconciledPhases` | base/urls/api.py:483-494 | the write phase fails, with a server error, exactly when the deletion loop does; otherwise it runs deletions, saves and savings mirroring in turn |
| `ReconcileOutcome.PlanCopyFixed` | base/urls/api.py:459-465 | classification keeps a copy's budget and name and flags it exactly when it was flagged or a deletion line refers to it |
| `ReconcileOutcome.PlanCopyAmount` | base/urls/api.py:467-471 | a copy no line updates keeps amount and description; an updated copy has an amount |
| `ReconcileOutcome.PlanCopyAmended` | base/urls/api.py:467-471 | an updated copy has the last updating line's amount, and a blank description is filled from the first updating line |
| `ReconcileOutcome.ReconciledUntouched` | base/urls/api.py:392 | a category no line refers to, and every category of another budget, is left as it was |
| `ReconcileOutcome.ReconciledDeletes` | base/urls/api.py:483-487 | a category a deletion line refers to is gone from its key |
| `ReconcileOutcome.ReconciledNewRows` | base/urls/api.py:474-491 | every row under a new key belongs to the request's budget |
| `ReconcileOutcome.ReconciledUpdates` | base/urls/api.py:467-472 | a category updated and not deleted keeps its key, with the last line's amount and a description filled only when blank |
| `ReconcileOutcome.ReconciledRevives` | base/urls/api.py:483-491 | a category both deleted and updated loses its key and comes back under a new one, flagged as deleted and carrying the updates |
| `ReconcileOutcome.PlanCreates` | base/urls/api.py:473-480 | a line naming no category of the budget queues a new category |
| `ReconcileOutcome.ReconciledCreates` | base/urls/api.py:473-491 | a line naming no category of the budget creates one under a new key |
| `ReconcileInserts.UpsertsInserting` | base/urls/api.py:490-491 | the save loop inserts, in queue order and under consecutive keys from the counter it starts at, each new category and each deleted copy at its first save; a copy that still has a row keeps its key |
| `ReconcileInserts.CreatedAt` | base/urls/api.py:473-480 | a line naming no category of the budget has its new category among the inserted rows, at the offset counting the rows inserted by the saves queued before it |
| `ReconcileInserts.CreatedApart` | base/urls/api.py:473-480 | two lines naming no category get two offsets, in line order, even when the lines are equal |
| `ReconcileInserts.NewRowFrom` | base/urls/api.py:459-491 | every inserted row is the new category of a line naming no category, at that line's offset, or the copy of a category one line deletes and another updates |
| `ReconcileInserts.ReconciledInserts` | base/urls/api.py:483-491 | the inserted rows sit in order under consecutive keys from the counter the deletion loop leaves, which is at or past the starting counter; the counter ends just past them and no other key is new |
| `ReconcileInserts.ReconciledCreatedKeys` | base/urls/api.py:473-491 | each line naming no category gets its new category under its own key, counted from where the inserts start; every other new key holds a category one line deletes and another updates |
| `ReconcileInserts.ReconciledCreatesApart` | base/urls/api.py:473-491 | two lines naming no category, even two equal lines, leave two new rows under two different new keys |
| `ReconcileOutcome.RaisesOnDebitMeans` | base/urls/api.py:486 | a marked copy whose debit raises is exactly a category whose deletion raises |
| `ReconcileOutcome.PlanRaises` | base/urls/api.py:483-487 | some debit raises exactly when a category that a deletion line refers to, and no other line updates, has a null amount and shares its name with one of the caller's goals |
| `ReconcileOutcome.ReconciledFails` | base/urls/api.py:483-487 | the write phase fails, with a server error, exactly when a deleted category that no line updates has a null amount and a goal of the caller with its name |
| `ReconcileOutcome.ReconciledConsistent` | base/urls/api.py:483-494 | the write phase keeps every category pointing at an existing budget and one budget per income |
| `ReconcileOutcome.MirrorsMeans` | base/urls/api.py:509-515 | after the debits, each line still finds the same goal it would have found before |
| `ReconcileOutcome.ReconciledSetsGoal` | base/urls/api.py:514-520 | a goal some line names ends with the last such line's amount and description, whatever the deletions debited |
| `ReconcileOutcome.ReconciledDebitsGoal` | base/urls/api.py:533-538 | a goal no line names loses exactly what the deletions debit from it, with no floor |
| `ReconcileOutcome.ReconciledOpensGoal` | base/urls/api.py:521-531 | a savings line naming no goal creates one under a new key with a target of zero |
| `ReconcileOutcome.CreateCategoriesSettles` | base/urls/api.py:376-496 | for the caller's budget, the handler writes the pairs of the first reply that parses and reaches the budget's total |
| `ReconcileOutcome.CreateCategoriesUnparsable` | base/urls/api.py:444-445 | for the caller's budget, a reply without pairs before any reply reaching the total makes the request fail with UnparsableReply, writing nothing |
| `ReconcileOutcome.CreateCategoriesUnsettled` | base/urls/api.py:398-450 | for the caller's budget, replies that all fall short of the total never settle; the request fails with OracleUnsettled and writes nothing |
| `ReconcileOutcome.CreateCategoriesConsistent` | base/urls/api.py:376-496 | creating categories keeps the ledger consistent |
| `SavingsGoals.NormaliseGoal` | base/urls/api.py:711-712 | a stored goal name always ends in `Savings` or `savings`; it is the submitted name exactly when that already does, else that name with ` Savings` appended |
| `SavingsGoals.NormaliseGoalIdempotent` | base/urls/api.py:711-712 | normalising a name twice is normalising it once |
| `SavingsGoals.NewTarget` | base/urls/api.py:714-722 | the target is refused exactly when it is not a number; a missing target keeps the old one, null clears it, a number replaces it |
| `SavingsGoals.LinkedCategory` | base/urls/api.py:725-728 | the linked category is the caller's category with the goal's name and the lowest key, and none exists when it finds none |
| `SavingsGoals.UpdateSavings` | base/urls/api.py:696-740 | a missing goal is NotFound and another user's is Forbidden; a null name raises; a malformed target or one below the amount saved is refused; on success the goal's name is normalised, its owner and amount saved stay, its target is at least the amount saved, its first linked category is renamed with it, and nothing else changes |
| `SavingsFacts.UpdateSavingsIdempotent` | base/urls/api.py:696-740 | repeating a successful update changes nothing more |
| `SavingsGoals.ListSavings` | base/urls/api.py:754-759 | the list holds exactly the caller's goals whose name contains the query, ignoring case (all of them for a missing or empty query), in key order |
| `SavingsGoals.GetOrCreateExtra` | base/urls/api.py:820-824 | the lookup raises exactly when the budget has two `Extra` rows; otherwise it returns the budget's `Extra` row, creating one under a fresh key only when there was none |
| `SavingsGoals.Transfer` | base/urls/api.py:818-831 | one turn removes the category, changes only the budget's `Extra` row and only in its amount, or adds that row; a null amount raises |
| `SavingsGoals.Move` | base/urls/api.py:827-831 | the `Extra` row gains the category's amount and the category's row goes; no other row changes |
| `SavingsGoals.Matching` | base/urls/api.py:814 | the matches are exactly the categories of the caller's budgets named like the goal, in key order |
| `SavingsGoals.DeleteSavings` | base/urls/api.py:802-836 | a missing goal is NotFound and another user's is Forbidden; a failure on an owned goal is a server error; on success exactly that goal goes, and incomes and budgets stay |
| `SavingsFacts.TransferAllInBudgets` | base/urls/api.py:816-831 | the deletion loop leaves every category under one of the budgets it started with, since the catch-all rows it adds belong to the moved categories' budgets |
| `SavingsFacts.DeleteSavingsConsistent` | base/urls/api.py:802-836 | deleting a goal keeps the ledger consistent: every category still belongs to an existing budget |
| `SavingsFacts.TransferKeepsTotal` | base/urls/api.py:827-831 | moving a category's amount into `Extra` keeps every budget's total |
| `SavingsFacts.DeleteSavingsKeepsTotals` | base/urls/api.py:816-831 | deleting a goal not named `Extra` keeps the sum of category amounts of every budget |
| `SavingsFacts.DeleteSavingsSweeps` | base/urls/api.py:814-834 | after a goal is deleted, no category of the caller's budgets carries its name; every other category, including another user's category of the same name, is kept, `Extra` rows change only in amount, and new rows are `Extra` rows |
| `SavingsFacts.TransferAllSparesBudget` | base/urls/api.py:816-831 | the deletion loop leaves alone a budget none of the matched categories belongs to: its categories keep their rows and it gains none |
| `SavingsFacts.DeleteSavingsSparesBudget` | base/urls/api.py:802-836 | deleting a goal leaves alone another user's budget, and a budget of the caller's with no category of the goal's name, `Extra` row included |
| `SavingsFacts.DeleteSavingsNullAmount` | base/urls/api.py:827-828 | a matching category with a null amount makes the deletion raise |
| `SavingsFacts.DeleteSavingsSucceeds` | base/urls/api.py:816-834 | when every budget has at most one `Extra` row and its amount is set, deletion succeeds exactly when every matching category has an amount |
| `SavingsFacts.DeleteExtraGoalLosesAmount` | base/urls/api.py:816-831 | deleting a goal named `Extra` loses the amount of its `Extra` category: the budget's total drops from 5.00 to 0 |

## Left out

- `Incomes.UpdateIncome`: the `get_object` helper (base/urls/api.py:89-98) returns a response object instead of stopping the request, so a missing or foreign entry reaches the serializer. The model states the owner-only behaviour the helper was meant to give: NotFound and Forbidden. The delete view (base/urls/api.py:148-157) uses `get_object_or_404` and an owner check, which is what `Incomes.DeleteIncome` models.
- `Incomes.CheckRange`: the handlers compare a `float`. The model compares exact cents, so the float rounding of amounts near 1000 or one billion is not modelled.
- Column limits: `max_digits=10` is modelled for income amounts (`Decimals.Fits`). `max_length=255` on names, and overflow of other decimal columns at save time, are not modelled.
- `Text.Lower`: case folding covers ASCII letters only; `icontains` in the database folds more.
- The oracle: the calls to the hosted language model, the prompt text, and the `_result` attribute check (base/urls/api.py:423-424) are left out. The replies are an input sequence, and `generate_description` is the parameter `describe`.
- `OracleText.Retry`: the loop in the source may run forever. The model is given a finite sequence of replies and fails with OracleUnsettled when they run out.
- `Decimals.ParseCents`: only plain literals of ASCII digits with at most two fraction digits are read. Exponents, `NaN`, `Infinity`, underscores, longer fractions and non-ASCII Unicode decimal digits (such as the Arabic-Indic `١٥٠`) count as unparsable, where Python's `Decimal` would accept them.
- Atomicity: each request either produces a new ledger or fails and leaves the ledger as it was. A crash part-way through the source's sequence of saves would leave earlier writes in place; those partial states are not modelled.
- Serializers: `IncomeSerializer` and `BudgetSerializer` are not part of this model. They are taken to be plain model serializers over every field, so a `CharField` without `blank=True` refuses text that is empty once stripped of whitespace, and a partial update writes every field it is sent, the income's `user` included.
- `Incomes.UpdateIncome`: a `user` key naming no existing user would be refused by the serializer; users are not modelled, so every user key is taken to exist.
- Text storage: text a serializer accepts is stored as sent; the serializer's trimming of surrounding whitespace is not modelled.
- Edit values: the model accepts text or null for text fields. Other JSON values and serializer coercions are not modelled.
- `Text.IsSpace`: whitespace is the ASCII whitespace Python strips (codes 9-13 and 28-32). Python's `str.strip` also removes other Unicode spaces (U+0085, U+00A0, U+2028, U+3000 and more), so a reply line such as `Food:` followed by a no-break space and `150` parses in the source but not in the model.
- `Reconcile.Describe`: `describe` is a function, so every description generated for the same name is the same text. The source asks the oracle afresh at each call (base/urls/api.py:471, 478, 519, 528) and may get different texts.
- `Categories.UpdateCategory`: a category whose budget row is missing is treated as Forbidden. In the source, the relation lookup would raise; the ledger's consistency invariant rules such a row out.
- `Reconcile.CreateCategories`: a budget key of 0 counts as missing, as Python's truth test on the request value does. Other falsy values are not distinguished.
- `SavingsFacts.DeleteSavingsKeepsTotals`: holds only for goals not named `Extra`. For a goal named `Extra`, the source adds its `Extra` category's amount to itself and then deletes that category, so the amount is lost; `SavingsFacts.DeleteExtraGoalLosesAmount` shows this. No handler modelled here stores such a name: `handle_savings` creates goals only for names containing `savings`, and the update handler appends ` Savings`.
- `Incomes.ListIncomes`: the list is in key order. The source's queryset (base/urls/api.py:63-68) has no `order_by`, so the database may return the rows in any order; key order is a choice of the model.
- `SavingsGoals.ListSavings`: the list is in key order. The source's queryset (base/urls/api.py:754-759) has no `order_by`, so the database may return the rows in any order; key order is a choice of the model.
- Pagination, serializers' output shapes, HTTP status codes, authentication, and the detail GET views are outside the ledger and are not modelled.
- Timestamps (`created_at`, `updated_at`) are not modelled. "Today" is a parameter.
