# my-money-be reconciliation core, in Dafny

This project models the reconciliation core of the my-money-be personal-finance
backend. It covers three connected surfaces:

- wallet balances;
- budget items and their `actual` amounts;
- the contribution pivots (one row per budget item and transaction) that
  record which expense has been counted into which item.

It also covers the read side built on them: per-day totals, the monthly
summary, the per-category overview and the budget figures. Finally it models
the shared `paginate`, `createPaginator` and `serialize` helpers.

The store is the class `Database.Store`, with one map field per table, the
pivot set and an id counter. A Prisma interactive transaction
(`$transaction`) works like this:

- `new Store.Begin(db)` opens a scratch copy of the store;
- the block's body is a method that writes to that copy;
- `db.Commit(copy)` runs only when the block succeeds.

A failed block therefore leaves the store as it was.

Every write operation is a method proved against a pure function on
`Schema.State`. The method's `ensures` says success happens exactly when the
function succeeds, the new store equals the function's result, and a failure
carries the function's error and changes nothing. The properties the service
promises are then lemmas about those functions:

- **Contribution tracking.** `applyContribution` is idempotent. It counts a
  transaction once in every matching item, and only there.
  `reverseContribution` undoes exactly what was applied, and the two are
  inverse to each other.
- **Ledger invariant.** Each item's `actual` equals the sum of the amounts of
  the expenses pivoted to it. `create`, `update`, `destroy`, `createItem`,
  `updateItem` and `removeItem` all preserve it. After every transaction
  write, the written row is counted in exactly the items whose scope it
  falls in.
- **Budget rule.** Two budgets of one wallet whose date ranges meet never
  plan the same category. Budget `create` keeps the rule for requests without
  repeated categories, and `createItem` and `removeItem` always keep it.
  Under the rule, an expense falls in the scope of at most one item.
- **Wallet balances.** Every write changes exactly the balances it names, by
  the signed amounts the code uses. A wallet's drift is its balance minus the
  signed total of its live transactions. `create` keeps the drift. `update`
  and `destroy` keep it for rows that are not transfers, and the lemmas state
  exactly how they change it otherwise.

### Behaviour of the code that the model keeps

Some of the code's behaviour is surprising; the model keeps it as the
code has it (`src/modules/transaction/transaction.service.ts`,
`src/modules/budget/budget.service.ts`). Each difference is stated as a
lemma:

- `update` and `destroy` undo and redo the balance effect of income and
  expense rows only. A transfer's two balance changes are never undone, so
  the wallets drift by the transferred amount
  (`LedgerInvariants.UpdateDrift`, `LedgerInvariants.DestroyDrift`).
- `update` does not check `toWalletId` for a transfer.
- `destroy` does not look at `deletedAt`. Deleting an already-deleted row
  succeeds, and it undoes the row's balance effect a second time
  (`Reconciliation.DestroyRepeats`). A second delete of the same row is not
  rejected.
- `update` of a soft-deleted row also succeeds. It puts the row's pivots
  back.
- `updateItem` checks nothing but the item's existence. It keeps `actual`
  and the pivots, so it keeps the ledger, but it can break the overlap rule
  (`BudgetRules.UpdateItemCanBreakRule`).
- Budget `create` checks the requested categories only against other
  budgets, not against each other. A request that repeats a category creates
  two clashing items (`BudgetRules.CreateBudgetRepeatedCategory`).
- `createItem` runs on the service's own client, outside any atomic block.
  Its checks and its insert are modelled as one step.
- New budget items start at `actual` 0 and do not pick up the transactions
  already in their scope.
- The budget listing's month clause lets through a budget with an inverted
  range that starts inside the month (`BudgetFigures.InMonthInvertedRange`).
  For a well-formed range, the clause is exactly a range overlap.
- In `findAll` and the budget listing, a month index of 0 (January) counts as
  given, because the test is `!= null` (`TransactionReports.FindAllWhere`,
  `BudgetFigures.MonthWhere`).
- `paginate` has four edge cases:
  - With page 0 and no limit or cursor it is unpaged, because 0 is falsy.
  - A limit of 0 with a truthy page gives a page count of `Infinity`, or
    `NaN` when nothing is counted.
  - Page 0 with a truthy limit gives a negative skip.
  - Its `??` defaults keep a given 0.
- `createPaginator` has no unpaged mode. With no options it gives the first
  page of 10 rows. It counts with no argument at all when the arguments have
  no `where`, where `paginate` passes `{ where: undefined }`
  (`Paginator.AgreesWithPaginate` states when the two agree).

### Parameters that stand in for the outside world

The model takes these as parameters:

- `destroy` takes the clock reading `now`.
- The month bounds of `startOfMonth` and `endOfMonth` are the parameters
  `startDate`, `endDate` and `bounds`.
- The date formats `yyyy-MM-dd` and `d MMM` are the functions `dateKey` and
  `dayLabel`.
- `toISOString` is the function `iso`.
- A paginated model's `findMany`, `count` and the rows' ids are the fields of
  `Pagination.Model`.

`GroupByDay` takes the page of rows that `findAll` fetched. `ListBudgets`
takes the page of budgets that the listing fetched.

Rows a store query returns come in id order. Dates are integer
milliseconds, and `addHours(d, -7)` subtracts 7 × 3 600 000.

## Model

| member | source | states |
|---|---|---|
| Database.Store.Begin | src/modules/transaction/transaction.service.ts:34 | an atomic block starts on a copy holding exactly the store's current contents |
| Database.Store.Commit | src/modules/transaction/transaction.service.ts:34-69 | committing a block makes the store hold exactly what the block's copy held |
| Database.Store.NewId | src/modules/transaction/transaction.service.ts:57-63 | a new row gets the next unused id, and only the id counter moves |
| WalletService.UpdateBalance | src/modules/wallet/wallet.service.ts:47-61 | the increment runs on the given client, or on the service's own store when none is given; it fails with wallet-not-found exactly when the wallet is missing, and then changes nothing |
| WalletService.IncrementChangesOnlyThatBalance | src/modules/wallet/wallet.service.ts:53-60 | the increment fails exactly for a missing wallet; otherwise it adds `amount` to that wallet's balance and leaves every other field, wallet and table unchanged |
| WalletService.IncrementAdditive | src/modules/wallet/wallet.service.ts:56-58 | two increments of one wallet equal one increment by their sum |
| WalletService.IncrementsCommute | src/modules/wallet/wallet.service.ts:53-60 | increments of two existing wallets give the same store in either order |
| TransactionService.FindMatchingBudgetItems | src/modules/transaction/transaction.service.ts:259-275 | a non-expense matches nothing; an expense matches exactly the items of its category whose budget is on its wallet and whose inclusive range holds its date |
| TransactionService.ApplyContribution | src/modules/transaction/transaction.service.ts:278-314 | the loop over the matching items leaves the store equal to the contribution specification: each matching item not yet pivoted to the row gains the amount and a pivot |
| TransactionService.ContributeAll | src/modules/transaction/transaction.service.ts:287-313 | the loop over a set of budget items leaves the store equal to the contribution specification for exactly those items |
| TransactionService.ContributeOne | src/modules/transaction/transaction.service.ts:288-312 | one round of the loop: an item not yet pivoted to the row gains the amount and a pivot, an item already pivoted is left as it is |
| TransactionService.ReverseContribution | src/modules/transaction/transaction.service.ts:317-342 | for an expense, the loop over the row's pivots takes the amount off each pivoted item and deletes every pivot of the row; a missing row or a non-expense changes nothing |
| TransactionService.ApplyEntryBalances | src/modules/transaction/transaction.service.ts:35-47 | `create`'s balance updates, on the block's client: income adds to the wallet, expense subtracts, and a transfer needs `toWalletId` and then moves the amount from the wallet to it |
| TransactionService.ReverseEntryBalances | src/modules/transaction/transaction.service.ts:82-94 | the undo of `update` and `destroy`: an income row is subtracted and an expense row added back on its wallet, and a transfer is left alone |
| TransactionService.ReapplyEntryBalances | src/modules/transaction/transaction.service.ts:96-101 | `update` applies the new income or expense to the new wallet and applies no transfer |
| TransactionService.CreateInBlock | src/modules/transaction/transaction.service.ts:34-69 | the block body of `create` (balances, then the date check, then the insert, then the contribution) agrees with the specification of `create` in outcome, new contents and returned row |
| TransactionService.Create | src/modules/transaction/transaction.service.ts:31-71 | `create` commits its whole effect or, on failure, leaves the store unchanged with the specification's error |
| TransactionService.UpdateInBlock | src/modules/transaction/transaction.service.ts:74-126 | the block body of `update` (lookup, undo, new balances, date check, reverse contribution, row update, apply contribution) agrees with the specification of `update` |
| TransactionService.Update | src/modules/transaction/transaction.service.ts:73-127 | `update` commits its whole effect or, on failure, leaves the store unchanged with the specification's error |
| TransactionService.DestroyInBlock | src/modules/transaction/transaction.service.ts:130-159 | the block body of `destroy` (lookup, undo, reverse contribution, soft delete) agrees with the specification of `destroy` |
| TransactionService.Destroy | src/modules/transaction/transaction.service.ts:129-160 | `destroy` commits its whole effect or, on failure, leaves the store unchanged with the specification's error |
| Reconciliation.ContributeKeepsScope | src/modules/transaction/transaction.service.ts:300-312 | contributing changes only item actuals and pivots, so the items any transaction matches are the same before and after |
| Reconciliation.WithdrawKeepsScope | src/modules/transaction/transaction.service.ts:331-340 | withdrawing changes only item actuals and pivots, so the items any transaction matches are the same before and after |
| Reconciliation.ApplyIdempotent | src/modules/transaction/transaction.service.ts:287-313 | applying a contribution twice gives the same store as applying it once |
| Reconciliation.ApplyCountsScopeOnce | src/modules/transaction/transaction.service.ts:287-313 | after applying an expense, its pivoted items are the old ones plus the matching ones, and each item's actual grew by the amount exactly when it matched and was not already pivoted |
| Reconciliation.ReverseIgnoresNonExpense | src/modules/transaction/transaction.service.ts:321-322 | reversing a missing row or a non-expense succeeds and changes nothing |
| Reconciliation.ReverseClearsPivots | src/modules/transaction/transaction.service.ts:325-341 | reversing an expense fails exactly when one of its pivots names a missing item; otherwise it removes exactly the row's pivots and takes the amount off exactly the pivoted items |
| Reconciliation.ReverseThenApplyRestores | src/modules/transaction/transaction.service.ts:112-123 | when an expense is pivoted to exactly its matching items, reversing and re-applying it gives back the same store |
| Reconciliation.ApplyThenReverseRestores | src/modules/transaction/transaction.service.ts:278-342 | applying and then reversing an expense that had no pivots gives back the same store |
| Reconciliation.EntryEffectBalances | src/modules/transaction/transaction.service.ts:35-47 | `create`'s balance step succeeds exactly when the wallet exists and, for a transfer, `toWalletId` is given and exists; a transfer without it fails with the required-wallet error; on success every balance moves by the row's signed effect |
| Reconciliation.ReverseEntryBalances | src/modules/transaction/transaction.service.ts:138-150 | the undo step succeeds exactly for a transfer or an existing wallet, and moves every balance back by the row's reversible effect (0 for a transfer) |
| Reconciliation.ReapplyEntryBalances | src/modules/transaction/transaction.service.ts:96-101 | the redo step of `update` succeeds exactly for a transfer or an existing wallet, and moves every balance by the new row's reversible effect |
| Reconciliation.CreateOutcome | src/modules/transaction/transaction.service.ts:35-55 | `create` succeeds exactly when a date is given, the wallet exists and a transfer's destination is given and exists; a transfer without one and a missing date fail with their own errors |
| Reconciliation.CreateEffects | src/modules/transaction/transaction.service.ts:49-66 | a created row has the next id, no deletion mark and the date 7 hours earlier; its table gains exactly that row, the balances move by its effect, and its contribution is applied |
| Reconciliation.UpdateUnknownId | src/modules/transaction/transaction.service.ts:78-80 | updating an unknown id fails with transaction-not-found |
| Reconciliation.UpdateMissingDate | src/modules/transaction/transaction.service.ts:103-109 | updating without a date fails; once the undo and redo of the balances went through, it fails with the date-required error |
| Reconciliation.UpdateEffects | src/modules/transaction/transaction.service.ts:82-123 | an update keeps the row's id, owner and deletion mark, replaces only that row, and moves each balance by the new reversible effect minus the old one |
| Reconciliation.DestroyUnknownId | src/modules/transaction/transaction.service.ts:134-136 | destroying an unknown id fails with transaction-not-found |
| Reconciliation.DestroyEffects | src/modules/transaction/transaction.service.ts:138-158 | destroy marks the row deleted at `now` and changes no other row; it moves each balance back by the row's reversible effect; for an expense it deletes exactly the row's pivots, keeps the set of items and takes the amount off exactly the items it was counted in, changing nothing else of them; a non-expense leaves items and pivots alone |
| Reconciliation.DestroyRepeats | src/modules/transaction/transaction.service.ts:129-160 | a second destroy of the same row succeeds as well, and the balances end up moved back twice |
| Reconciliation.DestroyAgain | src/modules/transaction/transaction.service.ts:129-160 | `destroy` succeeds for any stored row whose balance undo can be done and that no pivot names, whatever its deletion mark |
| LedgerInvariants.ContributePreserves | src/modules/transaction/transaction.service.ts:287-313 | applying the contribution of a stored row keeps pivots well formed and every item's actual equal to the sum over its pivots |
| LedgerInvariants.WithdrawPreserves | src/modules/transaction/transaction.service.ts:325-341 | reversing a stored row never fails under the ledger, keeps the ledger, and leaves no pivot of that row |
| LedgerInvariants.RowWritePreserves | src/modules/transaction/transaction.service.ts:114-120 | writing transaction rows that no pivot depends on keeps the ledger |
| LedgerInvariants.WriteAndCount | src/modules/transaction/transaction.service.ts:57-66 | writing a row with no pivots and applying its contribution keeps the ledger and pivots it to exactly its matching items |
| LedgerInvariants.CreatePreserves | src/modules/transaction/transaction.service.ts:31-71 | `create` keeps the ledger, and the new row is pivoted to exactly the items it matches |
| LedgerInvariants.UpdatePreserves | src/modules/transaction/transaction.service.ts:73-127 | `update` keeps the ledger, and the updated row is pivoted to exactly the items its new values match |
| LedgerInvariants.DestroyPreserves | src/modules/transaction/transaction.service.ts:129-160 | `destroy` keeps the ledger and leaves the row pivoted to no item |
| LedgerInvariants.WithdrawKeepsLedger | src/modules/transaction/transaction.service.ts:325-341 | reversing a stored row under the ledger succeeds, keeps the ledger, changes only items and pivots, and leaves no pivot of the row |
| LedgerInvariants.MarkDeletedKeepsLedger | src/modules/transaction/transaction.service.ts:155-158 | setting the deletion mark of a row that no pivot names keeps the ledger |
| LedgerInvariants.WithdrawNeverFails | src/modules/transaction/transaction.service.ts:329-341 | under the ledger, reversing any stored row succeeds |
| LedgerInvariants.CreateKeepsDrift | src/modules/transaction/transaction.service.ts:35-47 | `create` moves every balance by exactly its live effect, so no wallet's drift from its live transactions changes |
| LedgerInvariants.AppendedRowLedger | src/modules/transaction/transaction.service.ts:57-63 | inserting a live row under the next id moves a wallet's ledger by exactly that row's effect |
| LedgerInvariants.UpdateDrift | src/modules/transaction/transaction.service.ts:82-101 | `update` changes a wallet's drift by the part of the old and new rows' effect that it does not undo or redo (the transfers, and a deleted row) |
| LedgerInvariants.UpdateKeepsDrift | src/modules/transaction/transaction.service.ts:82-101 | updating a live non-transfer row to a non-transfer keeps every wallet's drift |
| LedgerInvariants.DestroyDrift | src/modules/transaction/transaction.service.ts:138-158 | `destroy` changes a wallet's drift by the row's live effect minus what it undoes |
| LedgerInvariants.DestroyKeepsDrift | src/modules/transaction/transaction.service.ts:138-150 | destroying a live non-transfer row keeps every wallet's drift |
| BudgetService.FirstConflict | src/modules/budget/budget.service.ts:29-39 | no conflict is reported exactly when no requested category is planned in an overlapping budget; a reported category is a requested one that is |
| BudgetService.FirstConflictAt | src/modules/budget/budget.service.ts:29-39 | the category reported is the earliest requested one that conflicts |
| BudgetService.NewItemsContents | src/modules/budget/budget.service.ts:48-53 | a new budget's items are exactly one per requested category, in request order, each with its plan and nothing spent |
| BudgetService.CheckCategories | src/modules/budget/budget.service.ts:29-39 | the nested loop over categories and overlapping budgets finds the first conflicting category |
| BudgetService.InsertItems | src/modules/budget/budget.service.ts:48-53 | the insert of a budget's items adds exactly the new items, advances the id counter by their number, and returns the created items in request order |
| BudgetService.InsertItem | src/modules/budget/budget.service.ts:48-53 | one round of the nested insert adds the item of the next requested category under the next id, with nothing spent, and returns it |
| BudgetService.CreateBudget | src/modules/budget/budget.service.ts:15-60 | budget `create` commits exactly its specification's effect and returns the budget with its items, or fails with its error and changes nothing |
| BudgetService.CreateItem | src/modules/budget/budget.service.ts:174-215 | `createItem` agrees with its specification in outcome, error, new contents and returned item |
| BudgetService.UpdateItem | src/modules/budget/budget.service.ts:217-227 | `updateItem` agrees with its specification |
| BudgetService.RemoveItem | src/modules/budget/budget.service.ts:229-237 | `removeItem` commits the removal of the item and its pivots together, or fails and changes nothing |
| BudgetRules.AtMostOneMatch | src/modules/transaction/transaction.service.ts:265-274 | under the overlap rule, a transaction matches at most one budget item |
| BudgetRules.ExclusiveFrame | src/modules/transaction/transaction.service.ts:300-305 | changing only item actuals keeps the overlap rule |
| BudgetRules.CreateBudgetOutcome | src/modules/budget/budget.service.ts:18-39 | budget `create` fails exactly when some requested category is planned in an overlapping budget of the wallet, with the first such category as the error; with no request or no overlap it succeeds |
| BudgetRules.FirstConflicting | src/modules/budget/budget.service.ts:29-39 | when some requested category conflicts, there is an earliest one |
| BudgetRules.CreateBudgetEffects | src/modules/budget/budget.service.ts:41-58 | a created budget has the next id and the request's fields; its items take the following ids, one per category, and nothing else changes; the items returned with it are exactly the stored new items, in request order |
| BudgetRules.NewItemMeetsNoOldItem | src/modules/budget/budget.service.ts:29-39 | after a successful budget `create`, no new item clashes with an existing item |
| BudgetRules.NewItemsApart | src/modules/budget/budget.service.ts:48-53 | two new items made from requested categories that differ do not clash |
| BudgetRules.CreateBudgetPairApart | src/modules/budget/budget.service.ts:15-60 | after a successful budget `create` without repeated categories, no two items clash |
| BudgetRules.CreateBudgetItemsBelong | src/modules/budget/budget.service.ts:41-58 | after a successful budget `create`, ids stay fresh, every row sits under its own id and every item belongs to a stored budget |
| BudgetRules.CreateBudgetKeepsRule | src/modules/budget/budget.service.ts:15-60 | a successful budget `create` without repeated categories keeps the budget tables valid and the overlap rule |
| BudgetRules.CreateBudgetRepeatedCategory | src/modules/budget/budget.service.ts:29-53 | a request that repeats a category succeeds and breaks the overlap rule |
| BudgetRules.CreateItemOutcome | src/modules/budget/budget.service.ts:175-214 | `createItem` succeeds exactly when the budget exists and no stored item of the category belongs to this budget or to another budget of its wallet whose range meets it; a missing budget is reported as such; the new item is fresh, with nothing spent, and clashes with no stored item |
| BudgetRules.CreateItemNoCompetitor | src/modules/budget/budget.service.ts:181-214 | when neither check of `createItem` fires, no stored item of the category belongs to a competing budget, and the new item clashes with none |
| BudgetRules.CreateItemKeepsRule | src/modules/budget/budget.service.ts:181-206 | a successful `createItem` keeps the budget tables valid and the overlap rule |
| BudgetRules.UpdateItemUndo | src/modules/budget/budget.service.ts:217-227 | `updateItem` fails exactly for a missing item; writing the former plan and category back restores the store exactly, and an empty patch changes nothing |
| BudgetRules.UpdateItemKeepsLedger | src/modules/budget/budget.service.ts:217-227 | `updateItem` keeps the ledger |
| BudgetRules.UpdateItemCanBreakRule | src/modules/budget/budget.service.ts:217-227 | moving an item to a category planned in an overlapping budget succeeds and breaks the overlap rule |
| BudgetRules.RemoveItemEffects | src/modules/budget/budget.service.ts:229-237 | `removeItem` fails exactly for a missing item; afterwards no pivot names the item, the other pivots stay, every other item keeps its row and its ledger total, and no other table changes |
| BudgetRules.RemoveItemKeepsRule | src/modules/budget/budget.service.ts:229-237 | `removeItem` keeps the budget tables valid |
| BudgetRules.RemoveItemKeepsLedger | src/modules/budget/budget.service.ts:231-235 | `removeItem` keeps the ledger |
| BudgetRules.OtherItemLedger | src/modules/budget/budget.service.ts:231-235 | dropping the pivots of one item leaves the pivot sum of every other item as it was |
| BudgetRules.FreshItemsKeepLedger | src/modules/budget/budget.service.ts:48-53 | adding budgets and items with fresh ids and nothing spent keeps the ledger |
| BudgetRules.BudgetCreatesKeepLedger | src/modules/budget/budget.service.ts:41-58 | budget `create` and `createItem` keep the ledger |
| BudgetRules.CreateBudgetKeepsLedger | src/modules/budget/budget.service.ts:41-58 | a successful budget `create` keeps the ledger: its new items have no pivots and nothing spent |
| BudgetRules.ContributeKeepsRule | src/modules/transaction/transaction.service.ts:300-305 | applying a contribution keeps the overlap rule |
| BudgetRules.WithdrawKeepsRule | src/modules/transaction/transaction.service.ts:331-340 | reversing a contribution keeps the overlap rule |
| BudgetRules.BalancesKeepRule | src/modules/wallet/wallet.service.ts:53-60 | balance updates keep the overlap rule |
| BudgetRules.TransactionWritesKeepRule | src/modules/transaction/transaction.service.ts:31-160 | `create`, `update` and `destroy` keep the overlap rule |
| BudgetFigures.RoundPercent | src/modules/budget/budget.service.ts:138-139 | the percentage is within half a unit of 100·a/b, with a half rounded up |
| BudgetFigures.RoundPercentUnique | src/modules/budget/budget.service.ts:138-139 | the rounding is the only integer within half a unit of 100·a/b |
| BudgetFigures.RoundPercentMonotone | src/modules/budget/budget.service.ts:138-139 | a larger numerator never gives a smaller percentage |
| BudgetFigures.RoundPercentRange | src/modules/budget/budget.service.ts:138-139 | 0 of b is 0 per cent, b of b is 100 per cent, and any share between is between |
| BudgetFigures.RoundPercentHalfUp | src/modules/budget/budget.service.ts:138-139 | a share exactly halfway between k and k + 1 per cent rounds to k + 1, towards +∞ as `Math.round` does, for every k of either sign |
| BudgetFigures.ItemsOfBudgetListsAll | src/modules/budget/budget.service.ts:121-126 | in a store whose ids are below the counter, every stored item of the budget is listed |
| BudgetFigures.ItemsOfBudget | src/modules/budget/budget.service.ts:121-126 | the items listed under a budget are its stored items; when every item is stored under its own id they are listed in strictly increasing id order, so each once |
| BudgetFigures.Usage | src/modules/budget/budget.service.ts:138-139 | usage is the rounded percentage of the total that is spent, or 0 when the total is not positive |
| BudgetFigures.Progress | src/modules/budget/budget.service.ts:142-143 | progress is the rounded percentage of the plan that is spent, or 0 when the plan is not positive |
| BudgetFigures.ViewItem | src/modules/budget/budget.service.ts:141-152 | an item's entry carries its id, plan and actual, its joined category and its progress |
| BudgetFigures.ViewItems | src/modules/budget/budget.service.ts:141-152 | there is one entry per item, in order |
| BudgetFigures.ViewBudget | src/modules/budget/budget.service.ts:133-166 | a listed budget keeps its fields and carries its wallet when it exists; spent is the sum of its items' actuals; remaining and spent add up to the total; usage is the rounded share spent; there is one entry per item |
| BudgetFigures.SpentWithinPlans | src/modules/budget/budget.service.ts:134-137 | when no item is overspent, the budget spends no more than its items plan |
| BudgetFigures.UsageRange | src/modules/budget/budget.service.ts:138-161 | a budget that spends between nothing and its total has usage between 0 and 100 and nothing negative remaining |
| BudgetFigures.MonthWhere | src/modules/budget/budget.service.ts:82-110 | with a month index or a year missing no budget is filtered out; with both, a budget is listed exactly when it starts in the month or starts by its end and ends after its start |
| BudgetFigures.InMonthIsOverlap | src/modules/budget/budget.service.ts:91-108 | for a budget whose range is not inverted, the month clause holds exactly when the budget's range and the month overlap |
| BudgetFigures.InMonthInvertedRange | src/modules/budget/budget.service.ts:91-108 | a budget with an inverted range that starts in the month is listed although the ranges do not overlap |
| BudgetFigures.ListBudgets | src/modules/budget/budget.service.ts:133-166 | the listing has one view per budget of the page, in page order |
| Grouping.Keys | src/modules/transaction/transaction.service.ts:213-244 | the group keys are exactly the keys of the rows, each once |
| Grouping.Members | src/modules/transaction/transaction.service.ts:213-244 | a group holds exactly the rows of its key, in row order |
| Grouping.PartitionSum | src/modules/transaction/transaction.service.ts:213-244 | summing the groups of every key gives the sum over all rows |
| TransactionReports.RowsWhere | src/modules/transaction/transaction.service.ts:357-370 | the rows a query returns are the stored rows that meet its where clause; when every row is stored under its own id they come in strictly increasing id order, so each once |
| TransactionReports.RowsWhereListsAll | src/modules/transaction/transaction.service.ts:357-370 | in a store whose ids are below the counter, every stored row meeting the where clause is listed |
| TransactionReports.FindAllWhere | src/modules/transaction/transaction.service.ts:184-203 | `findAll` lists live rows of the user (any user when none is given); it filters by the month's bounds exactly when both month index and year are given, so month index 0 counts as given |
| TransactionReports.BalanceIsSignedTotal | src/modules/transaction/transaction.service.ts:373-384 | income minus expense, where transfers count as expense, is the signed total of the rows |
| TransactionReports.DayGroupSnoc | src/modules/transaction/transaction.service.ts:218-232 | one more row adds its signed amount and itself to its own day's group, creating the group with that day's label and total 0 when it is new |
| TransactionReports.AddToDay | src/modules/transaction/transaction.service.ts:215-233 | one step of the reducer keeps the accumulator equal to the day groups of the rows seen so far, with the days in first-seen order |
| TransactionReports.DaysListed | src/modules/transaction/transaction.service.ts:213-244 | the values of the finished accumulator are the day groups in first-seen order, and their totals add up to the signed total of the rows |
| TransactionReports.GroupByDay | src/modules/transaction/transaction.service.ts:213-244 | the per-day groups of the page, in first-seen order; each group holds that day's rows and their signed total; the group totals add up to the signed total of the page |
| TransactionReports.MonthlySummary | src/modules/transaction/transaction.service.ts:344-394 | over the month's live rows of the user, income is the sum of incomes, expense the sum of expenses and transfers, and balance their difference, which is the signed total |
| TransactionReports.OrElse | src/modules/transaction/transaction.service.ts:494-498 | a given non-empty string is kept; an absent or empty one is replaced by the fallback |
| TransactionReports.CategoryTotalSnoc | src/modules/transaction/transaction.service.ts:502 | one more row adds its amount to the total of its own category only |
| TransactionReports.AddToCategory | src/modules/transaction/transaction.service.ts:488-503 | one step of the reducer keeps the accumulator equal to the category totals of the rows seen so far, with the categories in first-seen order |
| TransactionReports.CategoriesListed | src/modules/transaction/transaction.service.ts:487-518 | the values of the finished accumulator are the category totals in first-seen order, and they add up to the total of the rows |
| TransactionReports.Overview | src/modules/transaction/transaction.service.ts:470-522 | one entry per category of the month's live rows of the user and kind, in first-seen order, with the category's display defaults and its total; the entries add up to the rows' total |
| Pagination.CeilDiv | src/shared/utils/pagination.ts:71 | `Math.ceil(n / d)`: the least integer at or above the quotient, or an infinity or NaN for a zero divisor |
| Pagination.CursorMetaOf | src/shared/utils/pagination.ts:41-48 | cursor meta names the last row's id (or null), counts the rows, and says there is more exactly when the page came back full |
| Pagination.Paginate | src/shared/utils/pagination.ts:11-74 | with no truthy page, limit or cursor, every row with unpaged meta; with a truthy cursor, `limit ?? 10` rows after the cursor row; otherwise page `page ?? 1` of `limit ?? 10` rows, with the count of the arguments' where clause and its ceiling page count |
| Pagination.PagesAbut | src/shared/utils/pagination.ts:54 | page p + 1 starts exactly where page p ends |
| Pagination.TotalIndependentOfPage | src/shared/utils/pagination.ts:56-73 | every offset page of the same arguments and limit reports the same total and page count |
| Pagination.LastPageHoldsLastRow | src/shared/utils/pagination.ts:65-73 | with a positive limit, the last counted page starts before the last row and the page after it starts at or past the total |
| Pagination.ShortCursorPageIsLast | src/shared/utils/pagination.ts:41-48 | a cursor page that comes back short reports nothing more |
| Pagination.ZeroLimitPageCount | src/shared/utils/pagination.ts:71 | a limit of 0 gives a page count of `Infinity`, or `NaN` when nothing is counted |
| Paginator.CountArgsOf | src/shared/utils/paginator.ts:72-75 | the count gets just the where clause when the arguments have one, and nothing otherwise |
| Paginator.Paged | src/shared/utils/paginator.ts:25-91 | with a truthy cursor, `limit` rows after the cursor row and cursor meta; otherwise page `page ?? 1` of `limit` rows with the where clause's count and its ceiling page count; `limit` defaults to 10 |
| Paginator.CreatePaginator | src/shared/utils/paginator.ts:19-92 | the closure over a model gives, for every call, the page of that call's options |
| Paginator.NoOptionsGiveFirstPage | src/shared/utils/paginator.ts:33 | with no options the closure gives page 1 of 10 rows, where `paginate` gives every row |
| Paginator.AgreesWithPaginate | src/shared/utils/paginator.ts:19-92 | when `paginate` would page at all and the model counts no argument like an undefined where clause, the closure gives the same page as `paginate` |
| Paginator.PagesShareTotal | src/shared/utils/paginator.ts:82-90 | every offset page of the closure with the same arguments and limit reports the same total and page count |
| Serialize.Digits | src/shared/utils/index.ts:5 | the decimal digits of a number are non-empty, all digits, and have no leading zero |
| Serialize.DecimalString | src/shared/utils/index.ts:5 | `toString` of a bigint is its digits, with a minus sign when negative |
| Serialize.DigitsRoundTrip | src/shared/utils/index.ts:5 | the digits of a number read back as that number |
| Serialize.DecimalRoundTrip | src/shared/utils/index.ts:5 | the decimal string of every bigint reads back as that bigint |
| Serialize.DecimalInjective | src/shared/utils/index.ts:5 | different bigints have different decimal strings |
| Serialize.EntryKeys | src/shared/utils/index.ts:14-18 | the keys of an object's entries, in order |
| Serialize.Serialize | src/shared/utils/index.ts:1-21 | null and undefined stay; a bigint becomes its decimal string and a Date its ISO string; an array is converted item by item and an object value by value under the same keys; anything else stays |
| Serialize.SerializeIsPlain | src/shared/utils/index.ts:1-21 | no bigint or Date is left in the output at any depth |
| Serialize.PlainUnchanged | src/shared/utils/index.ts:1-21 | a value with no bigint or Date in it comes out unchanged |
| Serialize.SerializeIdempotent | src/shared/utils/index.ts:1-21 | converting twice gives the same value as converting once |

## Left out

- Floating point: amounts are integers. The budget figures divide exactly and then round half up, where the service rounds a float quotient, so quotients that floating point cannot represent exactly may round differently here.
- BudgetFigures.RoundPercent: does not model the float error of `(a / b) * 100` before `Math.round`, because the model's numbers are exact.
- Serialize.Serialize: a `number` is an integer here. Other object kinds (class instances other than Date, Prisma decimals) are not modelled. Object entries keep insertion order, which is JavaScript's order for the non-integer keys the service uses.
- Paginator.CountArgsOf: a `where` key present with the value undefined is treated like an absent key, because the model's arguments cannot tell the two apart.
- The date library (`startOfMonth`, `endOfMonth`, `addHours` on local time, `format`, `toISOString`) is replaced by parameters and integer milliseconds. Invalid dates are not modelled.
- `getChartByRange` is not part of this model; it is a report outside the reconciliation core.
- The ordering and pagination of `findAll` and of the budget listing are left to `paginate`; their where clauses are `FindAllWhere` and `MonthWhere`. `GroupByDay` and `ListBudgets` take the fetched page, and the store's row order is taken as id order.
- The `toString` of the summary figures is not modelled. `MonthlySummary` returns the figures as integers.
- Error message texts, including the budget's name in the overlap message, are reduced to error kinds.
- Pivot ids and the store's uniqueness constraint on pivots are not modelled: a pivot is its (item, transaction) pair in a set.
- No foreign-key checks: a row can name a category or wallet that does not exist, except where the code's `update` of a wallet or an item fails on a missing row.
- Concurrency and isolation between atomic blocks are left out. A block runs alone on its copy of the store.
- Budget `update` and `remove`, category, wallet and user management, authentication, controllers and request validation are outside the reconciliation core.
- TransactionService.ApplyEntryBalances: a transfer whose `toWalletId` is the empty string is not representable, because ids are numbers here. The code rejects it with the required-wallet error before any balance changes. The model's nearest input names a wallet id that does not exist, and fails with the wallet-not-found error instead.
- Pagination.Paginate and Paginator.Paged: `page` and `limit` are integers here, while the code takes any JavaScript number (the query schema coerces strings to numbers). A fractional page or limit, which gives a fractional `skip` or `take` and is echoed in the meta, is not modelled.
- `createItem` is not atomic in the code; the model runs its reads and its insert as one step, so an interleaving between them is not captured.
