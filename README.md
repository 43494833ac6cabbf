# Ledger core of the KPO1 personal-finance application, in Dafny

This project models the bookkeeping core of a Go personal-finance application and proves properties of it. The application tracks bank accounts, income and expense categories, and dated operations. It keeps each account's balance in step with the operations that reference it, and it derives analytics: income minus expense over a period, per-category totals, and a twelve-month income/expense table.

The modules follow the Go packages:

| module | Go source | form |
|---|---|---|
| `Models` | domain/models | entities as datatypes, `Validate` as functions |
| `Factory` | domain/factory | one class per factory, with its `nextId` counter field |
| `Persistence` | infrastructure/persistence/memory_repository.go | `Store` value with functions over it, plus the class `MemoryRepository` (three maps, three counters) whose methods are proved equal to those functions |
| `Listings`, `Totals` | (shared) | listings of a map as a sequence, filter selections, sums over a map |
| `Ledger` | application/services | what each service call does to the store, as a function of the store |
| `Consistency` | application/services | the balance invariant across every service call, and where it breaks |
| `Services` | application/services | the three service classes; each method is proved to end in the state the `Ledger` function gives |
| `Analytics` | application/analytics | the three figures as functions of the store, and the class `AnalyticsService`, whose loops are proved against them |
| `OperationFacade`, `BankAccountFacade`, `CategoryFacade`, `AnalyticsFacade` | application/facade | input checks followed by the service call, as functions |
| `Commands` | application/commands/analytics_commands.go | the four analytics commands as classes over channels |

**Aliasing.** In Go, `GetByID` returns the stored pointer, so a service that changes a fetched entity changes the stored one at once. The model writes every such change straight into the store's map at the point where Go makes it. The repository `Update` that follows stores the same object again and cannot fail, so the model folds it into the write.

**Amounts and dates.** Amounts are integers (smallest currency unit), so every sum is exact. Dates are `Date(year, month, day)` values compared the way `time.Time.After` compares them at day granularity. `OperationType` is `Income | Expense | Unknown(tag)`. Go's type is a string, and the guards that reject other strings need a value to reject.

**Code versus design notes.** Where the repository's design notes and its code differ, the model follows the code:
- **UpdateOperation is not atomic.** The old account's balance is reversed, in the store, before the new account and the category are checked. A later failure returns an error and keeps the reversal. See `Consistency.FailedUpdateKeepsReversal` and `OperationFacade.UnknownAccountBreaksBalances`.
- **New ids come from the factories.** A factory's counter is never raised after entities are stored with explicit ids (`SetNextID` is never called). A later creation can then reuse a stored id and silently replace that entity; the id does not continue after the largest stored one. See `Consistency.FactoryBehindOverwrites`.
- **The category summary is keyed by the category itself**, not by its id.
- **UpdateBankAccount and UpdateCategory change the stored entity before validating it.** A rejected name or type therefore stays in the store. Through the facades this cannot happen, because the facades make the same checks first.

## Model

| member | source | states |
|---|---|---|
| Models.ValidateOperation | domain/models/operation.go:21-43 | Pass exactly when id, account id, category id and amount are positive and the type is Income or Expense; otherwise the first failing check's error, in the source's order |
| Models.ValidateCategory | domain/models/category.go:18-32 | Pass exactly when the name is non-empty, the id positive and the type known; the name is checked first, then the id, then the type |
| Models.ValidateBankAccount | domain/models/bank_account.go:18-28 | Pass exactly when the name is non-empty and the id positive, the name checked first; the balance is not constrained |
| Factory.BuildOperation | domain/factory/operation_factory.go:21-48 | the operation carries the counter as id and every argument; it is returned exactly when Validate passes, and otherwise a validation error |
| Factory.BuildBankAccount | domain/factory/bank_account_factory.go:21-38 | the account has the counter as id, the name and balance 0; an empty name gives the name error |
| Factory.BuildCategory | domain/factory/category_factory.go:21-38 | the category has the counter as id, the type and the name; an empty name or an unknown type gives the matching error |
| Factory.Raised | domain/factory/operation_factory.go:51-55 | the counter after SetNextID is the larger of the old counter and the argument |
| Factory.OperationFactory.CreateOperation | domain/factory/operation_factory.go:21-48 | the result is BuildOperation of the old counter; the counter moves on by exactly one on success and stays on failure; the id is positive and below the new counter |
| Factory.OperationFactory.SetNextId | domain/factory/operation_factory.go:51-55 | the counter is raised to the argument only when the argument is larger |
| Factory.BankAccountFactory.CreateBankAccount | domain/factory/bank_account_factory.go:21-38 | the result is BuildBankAccount of the old counter; counter +1 on success only |
| Factory.BankAccountFactory.SetNextId | domain/factory/bank_account_factory.go:41-45 | the counter only rises |
| Factory.CategoryFactory.CreateCategory | domain/factory/category_factory.go:21-38 | the result is BuildCategory of the old counter; counter +1 on success only |
| Factory.CategoryFactory.SetNextId | domain/factory/category_factory.go:41-45 | the counter only rises |
| Factory.CreatedIdsIncrease | domain/factory/operation_factory.go:14-48 | two successive successful creations give positive, strictly increasing ids, consecutive when the inputs are valid |
| Persistence.Put | infrastructure/persistence/memory_repository.go:58-71 | Save: a zero id takes the counter and advances it by one; an explicit id at or past the counter sets the counter to that id + 1; a smaller one leaves it; the entry replaces whatever was under its key; counters never decrease and every key stays below the counter |
| Persistence.Replace | infrastructure/persistence/memory_repository.go:74-84 | Update fails with not found exactly when the key is absent; otherwise only that key changes and the counter stays |
| Persistence.Remove | infrastructure/persistence/memory_repository.go:87-97 | Delete fails with not found exactly when the key is absent; otherwise exactly that key goes and the counter stays, so the id is not reused |
| Persistence.Find | infrastructure/persistence/memory_repository.go:34-43 | GetByID returns the stored entry exactly when the key is present, else not found |
| Persistence.FindAccount | infrastructure/persistence/memory_repository.go:34-43 | the account found carries the id asked for |
| Persistence.FindCategory | infrastructure/persistence/memory_repository.go:100-109 | the category found carries the id asked for |
| Persistence.FindOperation | infrastructure/persistence/memory_repository.go:180-189 | the operation found carries the id asked for |
| Persistence.PutAccount | infrastructure/persistence/memory_repository.go:58-71 | SaveBankAccount stores the account under its assigned id and returns it with that id; the store stays well formed |
| Persistence.PutCategory | infrastructure/persistence/memory_repository.go:138-151 | SaveCategory, as PutAccount |
| Persistence.PutOperation | infrastructure/persistence/memory_repository.go:263-276 | SaveOperation, as PutAccount |
| Persistence.ReplaceAccount | infrastructure/persistence/memory_repository.go:74-84 | UpdateBankAccount: not found exactly when absent; else only that entry changes |
| Persistence.ReplaceCategory | infrastructure/persistence/memory_repository.go:154-164 | UpdateCategory, as ReplaceAccount |
| Persistence.ReplaceOperation | infrastructure/persistence/memory_repository.go:279-289 | UpdateOperation, as ReplaceAccount |
| Persistence.RemoveAccount | infrastructure/persistence/memory_repository.go:87-97 | DeleteBankAccount: not found exactly when absent; else exactly that entry goes |
| Persistence.RemoveCategory | infrastructure/persistence/memory_repository.go:167-177 | DeleteCategory, as RemoveAccount |
| Persistence.RemoveOperation | infrastructure/persistence/memory_repository.go:292-302 | DeleteOperation, as RemoveAccount |
| Persistence.OfKind | infrastructure/persistence/memory_repository.go:124-135 | GetCategoriesByType selects exactly the categories of that type |
| Persistence.SaveFreshKeepsEntries | infrastructure/persistence/memory_repository.go:62-69 | a Save with id 0 takes a free key, keeps every earlier entry and advances the counter by one |
| Persistence.SaveExplicitOverwrites | infrastructure/persistence/memory_repository.go:69 | a Save with a stored explicit id silently replaces that entry; the number of entries does not grow |
| Persistence.MemoryRepository.constructor | infrastructure/persistence/memory_repository.go:22-31 | empty maps, every counter at 1 |
| Persistence.MemoryRepository.GetBankAccountById | infrastructure/persistence/memory_repository.go:34-43 | returns the stored account or not found |
| Persistence.MemoryRepository.GetAllBankAccounts | infrastructure/persistence/memory_repository.go:46-55 | lists every stored account exactly once |
| Persistence.MemoryRepository.SaveBankAccount | infrastructure/persistence/memory_repository.go:58-71 | new state and returned account are PutAccount's |
| Persistence.MemoryRepository.UpdateBankAccount | infrastructure/persistence/memory_repository.go:74-84 | new state and outcome are ReplaceAccount's |
| Persistence.MemoryRepository.DeleteBankAccount | infrastructure/persistence/memory_repository.go:87-97 | new state and outcome are RemoveAccount's |
| Persistence.MemoryRepository.GetCategoryById | infrastructure/persistence/memory_repository.go:100-109 | returns the stored category or not found |
| Persistence.MemoryRepository.GetAllCategories | infrastructure/persistence/memory_repository.go:112-121 | lists every stored category exactly once |
| Persistence.MemoryRepository.GetCategoriesByType | infrastructure/persistence/memory_repository.go:124-135 | lists exactly the categories of that type, each once |
| Persistence.MemoryRepository.SaveCategory | infrastructure/persistence/memory_repository.go:138-151 | new state and returned category are PutCategory's |
| Persistence.MemoryRepository.UpdateCategory | infrastructure/persistence/memory_repository.go:154-164 | new state and outcome are ReplaceCategory's |
| Persistence.MemoryRepository.DeleteCategory | infrastructure/persistence/memory_repository.go:167-177 | new state and outcome are RemoveCategory's |
| Persistence.MemoryRepository.GetOperationById | infrastructure/persistence/memory_repository.go:180-189 | returns the stored operation or not found |
| Persistence.MemoryRepository.Select | infrastructure/persistence/memory_repository.go:204-215 | the filter loop lists exactly the operations the filter keeps, each once |
| Persistence.MemoryRepository.GetAllOperations | infrastructure/persistence/memory_repository.go:192-201 | lists every stored operation exactly once |
| Persistence.MemoryRepository.GetOperationsByBankAccountId | infrastructure/persistence/memory_repository.go:204-215 | lists exactly the operations of that account |
| Persistence.MemoryRepository.GetOperationsByCategoryId | infrastructure/persistence/memory_repository.go:218-229 | lists exactly the operations of that category |
| Persistence.MemoryRepository.GetOperationsByDateRange | infrastructure/persistence/memory_repository.go:232-244 | lists exactly the operations dated in the closed interval [start, end] |
| Persistence.MemoryRepository.GetOperationsByTypeAndDateRange | infrastructure/persistence/memory_repository.go:247-260 | lists exactly the operations of that type dated in [start, end] |
| Persistence.MemoryRepository.SaveOperation | infrastructure/persistence/memory_repository.go:263-276 | new state and returned operation are PutOperation's |
| Persistence.MemoryRepository.UpdateOperation | infrastructure/persistence/memory_repository.go:279-289 | new state and outcome are ReplaceOperation's |
| Persistence.MemoryRepository.DeleteOperation | infrastructure/persistence/memory_repository.go:292-302 | new state and outcome are RemoveOperation's |
| Listings.Collect | infrastructure/persistence/memory_repository.go:46-55 | the loop appending the selected entries lists each selected entry of the map exactly once |
| Totals.Where | infrastructure/persistence/memory_repository.go:204-260 | a filter query's selection: exactly the entries the filter keeps, unchanged |
| Totals.SignedIsIncomeMinusRest | application/analytics/analytics_service.go:33-42 | the signed sum that defines a balance equals the income amounts minus the amounts of every other type |
| Ledger.CreateOperation | application/services/operation_service.go:34-84 | account not found, then category not found, then type mismatch, then the factory's validation error, each with no change; it succeeds exactly when the account and the category exist, the types agree and the factory accepts; on success exactly one operation is added, under the factory's id, and exactly one account's balance moves by +amount for Income, -amount otherwise |
| Ledger.UpdateOperation | application/services/operation_service.go:116-200 | missing operation or old account: no change; after the reversal, a missing new account, then a missing category, then a type mismatch is reported, each keeping the reversal and nothing else; the update succeeds exactly when none of these applies; success rewrites the six fields and moves every account's balance by minus the old effect and plus the new one, both landing on one account when the ids agree |
| Ledger.Retarget | application/services/operation_service.go:141-199 | after the reversal: a missing account, then a missing category, then a type mismatch is reported with no further change; it succeeds exactly when none applies, returning the prior operation with the new fields, and keeps the store well formed |
| Ledger.DeleteOperation | application/services/operation_service.go:203-232 | missing operation or account: error, no change; it succeeds whenever both exist, removing the operation and taking its signed amount off its account |
| Ledger.CreateBankAccount | application/services/bank_account_service.go:32-44 | it succeeds exactly when the name is non-empty and the counter positive; an empty name gives the name error; on success an account with balance 0 is stored under the factory's id and the counter advances; a failure changes nothing |
| Ledger.UpdateBankAccount | application/services/bank_account_service.go:61-80 | not found for a missing id; otherwise the name is written before validation, so a rejected name stays, and the balance never changes |
| Ledger.DeleteBankAccount | application/services/bank_account_service.go:83-95 | succeeds exactly when the account exists and no operation references it; refuses with the reference error when one does; a missing, unreferenced id gives not found; a refusal changes nothing |
| Ledger.RecalculateBalance | application/services/bank_account_service.go:98-128 | not found for a missing id; otherwise the balance becomes the signed sum of the account's operations and nothing else changes |
| Ledger.CreateCategory | application/services/category_service.go:32-44 | stored exactly when the name is non-empty, the type known and the counter positive |
| Ledger.UpdateCategory | application/services/category_service.go:66-86 | not found for a missing id; otherwise name and type are written before validation, and validation's error is returned |
| Ledger.DeleteCategory | application/services/category_service.go:89-101 | succeeds exactly when the category exists and no operation references it; refuses with the reference error when one does; a missing, unreferenced id gives not found; a refusal changes nothing |
| Consistency.NoOperationsNoBalance | application/services/bank_account_service.go:33-43 | an account no operation references has balance sum 0 |
| Consistency.CreateOperationKeepsConsistent | application/services/operation_service.go:71-78 | a creation keeps every balance equal to the signed sum of its operations, and every reference and type agreement |
| Consistency.UpdateOperationKeepsConsistent | application/services/operation_service.go:135-177 | a successful update keeps the ledger consistent |
| Consistency.UpdatedReferencesHold | application/services/operation_service.go:143-164 | the rewritten operation references a stored account and a stored category of its type |
| Consistency.UpdatedBalancesMatch | application/services/operation_service.go:135-177 | subtracting the old effect and adding the new one keeps every balance equal to its signed sum |
| Consistency.FailedUpdateKeepsReversal | application/services/operation_service.go:135-161 | a failed update after the reversal leaves the operations as they were and the old account's balance short by the operation's signed amount, so balances no longer match |
| Consistency.MismatchedUpdateBreaksBalances | application/services/operation_service.go:155-161 | a type mismatch is reported after the reversal and leaves the balances wrong |
| Consistency.DeleteOperationKeepsConsistent | application/services/operation_service.go:216-231 | a deletion keeps the ledger consistent |
| Consistency.CreateBankAccountKeepsConsistent | application/services/bank_account_service.go:32-44 | a new account's zero balance is its signed sum |
| Consistency.UpdateBankAccountKeepsConsistent | application/services/bank_account_service.go:61-80 | renaming never touches a balance |
| Consistency.RejectedNamePersists | application/services/bank_account_service.go:67-76 | an empty name is rejected and yet stored |
| Consistency.DeleteBankAccountKeepsConsistent | application/services/bank_account_service.go:83-95 | account deletion keeps the ledger consistent |
| Consistency.RecalculatedBalanceMatches | application/services/bank_account_service.go:110-118 | after recalculation the account's balance is its signed sum and every other account is unchanged |
| Consistency.RecalculateOnConsistentIsNoOp | application/services/bank_account_service.go:98-128 | on a consistent ledger recalculation changes nothing |
| Consistency.RecalculateIdempotent | application/services/bank_account_service.go:98-128 | a second recalculation gives the same balance and store |
| Consistency.RecalculateRepairsFailedUpdate | application/services/bank_account_service.go:98-128 | recalculating the old account after a failed update restores consistency |
| Consistency.CreateCategoryKeepsConsistent | application/services/category_service.go:32-44 | category creation keeps the ledger consistent |
| Consistency.UpdateCategoryKeepsBalances | application/services/category_service.go:66-86 | updating a category keeps balances and references |
| Consistency.RetypingBreaksKinds | application/services/category_service.go:72-73 | retyping a category an operation uses leaves that operation with the other type |
| Consistency.DeleteCategoryKeepsConsistent | application/services/category_service.go:89-101 | category deletion keeps the ledger consistent |
| Consistency.FactoryBehindOverwrites | domain/factory/operation_factory.go:31 | with a factory counter behind the store, a creation replaces a stored operation instead of adding one; on a consistent ledger, when the replaced operation's amount is non-zero, its amount stays in its account's balance and balances no longer match |
| Services.SumSigned | application/services/bank_account_service.go:110-118 | the loop from zero ends at the signed sum of the listed operations |
| Services.OperationService.CreateOperation | application/services/operation_service.go:34-84 | store, factory counter and result are those of Ledger.CreateOperation |
| Services.OperationService.UpdateOperation | application/services/operation_service.go:116-200 | store and result are those of Ledger.UpdateOperation |
| Services.OperationService.Retarget | application/services/operation_service.go:141-199 | store and result are those of Ledger.Retarget |
| Services.OperationService.DeleteOperation | application/services/operation_service.go:203-232 | store and outcome are those of Ledger.DeleteOperation |
| Services.BankAccountService.CreateBankAccount | application/services/bank_account_service.go:32-44 | store, counter and result are those of Ledger.CreateBankAccount |
| Services.BankAccountService.UpdateBankAccount | application/services/bank_account_service.go:61-80 | store and result are those of Ledger.UpdateBankAccount |
| Services.BankAccountService.DeleteBankAccount | application/services/bank_account_service.go:83-95 | store and outcome are those of Ledger.DeleteBankAccount |
| Services.BankAccountService.RecalculateBalance | application/services/bank_account_service.go:98-128 | store and result are those of Ledger.RecalculateBalance |
| Services.CategoryService.CreateCategory | application/services/category_service.go:32-44 | store, counter and result are those of Ledger.CreateCategory |
| Services.CategoryService.GetCategoriesByType | application/services/category_service.go:61-63 | lists exactly the categories of the type |
| Services.CategoryService.UpdateCategory | application/services/category_service.go:66-86 | store and result are those of Ledger.UpdateCategory |
| Services.CategoryService.DeleteCategory | application/services/category_service.go:89-101 | store and outcome are those of Ledger.DeleteCategory |
| Analytics.ReversedPeriodIsEmpty | infrastructure/persistence/memory_repository.go:232-244 | a period whose start is after its end selects nothing |
| Analytics.DifferenceIsNetBalanceChange | application/analytics/analytics_service.go:27-43 | income minus expense over a period is the signed sum of its operations, the net change they make to balances |
| Analytics.QuietPeriodHasNoDifference | application/analytics/analytics_service.go:33-42 | a period without operations has difference 0 |
| Analytics.StoredUnderOwnId | application/analytics/analytics_service.go:58-60 | in a map keyed by id every category sits under its own id |
| Analytics.CategorySummaryKeys | application/analytics/analytics_service.go:62-73 | a category is in the summary exactly when it is stored and some operation of the period references it; its entry is the total amount of the period's operations of that category |
| Analytics.SummaryInsert | application/analytics/analytics_service.go:63-73 | one more operation adds its amount to its category's entry, starting at 0, and changes nothing when its category is not stored |
| Analytics.SummaryEntryStored | application/analytics/analytics_service.go:69-72 | the per-category part of SummaryInsert |
| Analytics.SummaryInsertStored | application/analytics/analytics_service.go:69-72 | SummaryInsert for an operation of a stored category |
| Analytics.SummaryInsertOrphan | application/analytics/analytics_service.go:63-67 | SummaryInsert for an operation whose category is not stored |
| Analytics.CategoryTotalInsert | application/analytics/analytics_service.go:69-72 | a category's total gains the new operation's amount exactly when it is of that category |
| Analytics.SummarySkipsOrphans | application/analytics/analytics_service.go:63-67 | an operation whose category is not stored leaves the summary unchanged |
| Analytics.YearPeriod | application/analytics/analytics_service.go:80-83 | a date lies in the year's period exactly when its year is that year |
| Analytics.MonthlyOfIsTable | application/analytics/analytics_service.go:79-102 | the table function has a row for every month, entries for exactly Income, Expense and the month's other types, each the month's total of that type |
| Analytics.MonthlyShape | application/analytics/analytics_service.go:88-94 | every month has Income and Expense entries |
| Analytics.TableUnique | application/analytics/analytics_service.go:79-102 | two tables of the same operations are equal |
| Analytics.TableEntry | application/analytics/analytics_service.go:96-99 | in a table every entry, present or absent, is that month's total of that type |
| Analytics.ZeroTable | application/analytics/analytics_service.go:88-94 | twelve zero Income/Expense rows are the table of no operations |
| Analytics.TableInsert | application/analytics/analytics_service.go:96-99 | adding one operation's amount to its month and type turns the table of m into the table of m with that operation |
| Analytics.EntryInsert | application/analytics/analytics_service.go:96-99 | TableInsert for one entry |
| Analytics.TypesInInsert | application/analytics/analytics_service.go:96-99 | the types occurring in a month gain the new operation's type exactly when it is dated in that month |
| Analytics.MonthTotalsInsert | application/analytics/analytics_service.go:96-99 | the sum over the first n months gains the new amount exactly when its type matches and its month is within n |
| Analytics.MonthTotalsOfNothing | application/analytics/analytics_service.go:88-94 | the month totals of no operations are 0 |
| Analytics.MonthsPartition | application/analytics/analytics_service.go:96-99 | the twelve months split a type's total without loss or overlap |
| Analytics.MonthsSumOfTable | application/analytics/analytics_service.go:96-99 | a table's entries of a type over the first n months add up to the month totals |
| Analytics.MonthlyAddsUpToYear | application/analytics/analytics_service.go:79-102 | the twelve monthly entries of a type add up to that type's total over the year's operations; operations outside the year are not counted |
| Analytics.AnalyticsService.GetIncomeExpenseDifference | application/analytics/analytics_service.go:27-43 | the loop's income minus expense is Difference of the store; the repository is not written |
| Analytics.AnalyticsService.GetCategorySummary | application/analytics/analytics_service.go:46-76 | the result is CategorySummary of the store; the repository is not written |
| Analytics.AnalyticsService.GetMonthlyDynamics | application/analytics/analytics_service.go:79-102 | the result is MonthlyDynamics of the store; the repository is not written |
| Analytics.Summarise | application/analytics/analytics_service.go:62-73 | the summary loop over listed operations computes the summary of their map |
| Analytics.Tabulate | application/analytics/analytics_service.go:88-99 | the initialisation and accumulation loops produce the monthly table of the listed operations |
| OperationFacade.CreateOperation | application/facade/operation_facade.go:27-61 | account id, category id and amount are checked in that order before any lookup; a missing category is reported with no change; otherwise the service runs with the category's type |
| OperationFacade.CreateNeverMismatches | application/facade/operation_facade.go:47-60 | through the facade the type check never fires; a created operation has its category's type, a positive amount and passes Validate |
| OperationFacade.CategoryReportedBeforeAccount | application/facade/operation_facade.go:47-50 | with account and category both missing the facade reports the category, where the service alone reports the account |
| OperationFacade.CreateKeepsConsistent | application/facade/operation_facade.go:27-61 | a creation through the facade keeps the ledger consistent |
| OperationFacade.GetOperationDetails | application/facade/operation_facade.go:64-70 | id <= 0 is refused; otherwise the stored operation or not found |
| OperationFacade.GetOperationsByBankAccount | application/facade/operation_facade.go:78-84 | refused exactly when the id is not positive; otherwise exactly the account's operations, each as stored |
| OperationFacade.GetOperationsByCategory | application/facade/operation_facade.go:87-93 | refused exactly when the id is not positive; otherwise exactly the category's operations, each as stored |
| OperationFacade.GetOperationsByDateRange | application/facade/operation_facade.go:96-102 | refused exactly when start is after end; otherwise exactly the operations in [start, end], each as stored |
| OperationFacade.OneDayPeriod | application/facade/operation_facade.go:97-99 | start equal to end is accepted and gives exactly that day's operations, each as stored |
| OperationFacade.UpdateOperation | application/facade/operation_facade.go:105-144 | id, account id, category id and amount are checked in that order, then the category is looked up, then the service runs with its type |
| OperationFacade.UpdateKeepsConsistent | application/facade/operation_facade.go:128-143 | through the facade an update never fails the type check, and a successful one keeps the ledger consistent |
| OperationFacade.UnknownAccountBreaksBalances | application/facade/operation_facade.go:112-143 | an unknown positive account id still fails after the reversal, leaving the balances wrong |
| OperationFacade.DeleteOperation | application/facade/operation_facade.go:147-153 | id <= 0 is refused with no change; otherwise the service's deletion |
| OperationFacade.DeleteKeepsConsistent | application/facade/operation_facade.go:147-153 | a deletion through the facade keeps the ledger consistent |
| BankAccountFacade.CreateBankAccount | application/facade/bank_account_facade.go:21-28 | an empty name is refused with no change; otherwise the service's creation |
| BankAccountFacade.CreateBankAccountOutcome | application/facade/bank_account_facade.go:21-28 | a creation succeeds exactly when the name is non-empty and the counter positive, giving a zero-balance account and advancing the counter |
| BankAccountFacade.GetBankAccount | application/facade/bank_account_facade.go:31-37 | id <= 0 is refused; otherwise the stored account or not found |
| BankAccountFacade.UpdateBankAccount | application/facade/bank_account_facade.go:45-55 | the id is checked before the name; inputs that pass go to the service unchanged |
| BankAccountFacade.UpdateBankAccountAllOrNothing | application/facade/bank_account_facade.go:45-55 | through the facade a rename either succeeds, changing only that name, or leaves the store as it was |
| BankAccountFacade.DeleteBankAccount | application/facade/bank_account_facade.go:58-64 | id <= 0 is refused with no change; otherwise the service's deletion |
| BankAccountFacade.RecalculateBalance | application/facade/bank_account_facade.go:67-73 | id <= 0 is refused with no change; otherwise the service's recalculation |
| BankAccountFacade.AccountFacadeKeepsConsistent | application/facade/bank_account_facade.go:21-73 | no call of the account facade breaks a consistent ledger |
| CategoryFacade.CreateCategory | application/facade/category_facade.go:21-32 | the name is checked, then the type; inputs that pass go to the service unchanged |
| CategoryFacade.CreateCategoryChecksAreValidate | application/facade/category_facade.go:21-32 | with a positive counter the facade refuses exactly what Validate refuses, with the same error, and otherwise creates the category |
| CategoryFacade.GetCategory | application/facade/category_facade.go:35-41 | id <= 0 is refused; otherwise the stored category or not found |
| CategoryFacade.GetCategoriesByType | application/facade/category_facade.go:49-55 | refused exactly for an unknown type; otherwise exactly the categories of that type, each as stored |
| CategoryFacade.UpdateCategory | application/facade/category_facade.go:58-72 | the id, then the name, then the type are checked; inputs that pass go to the service unchanged |
| CategoryFacade.UpdateCategoryAllOrNothing | application/facade/category_facade.go:58-72 | through the facade a rejected name or type never reaches the store |
| CategoryFacade.RetypingStillBreaksKinds | application/facade/category_facade.go:67-71 | the facade does not stop retyping a category that operations use |
| CategoryFacade.DeleteCategory | application/facade/category_facade.go:75-81 | id <= 0 is refused with no change; otherwise the service's deletion |
| AnalyticsFacade.GetIncomeExpenseDifference | application/facade/analytics_facade.go:23-29 | refused exactly when start is after end; otherwise the service's difference |
| AnalyticsFacade.GetCategorySummary | application/facade/analytics_facade.go:32-38 | refused exactly when start is after end; otherwise the service's summary |
| AnalyticsFacade.OneDayAccepted | application/facade/analytics_facade.go:24-33 | start equal to end is accepted by both period queries |
| AnalyticsFacade.GetMonthlyDynamics | application/facade/analytics_facade.go:41-48 | refused exactly when the year is below 2000 or above the current year + 1, naming that bound; otherwise the service's table |
| AnalyticsFacade.MonthlyDynamicsOfAcceptedYear | application/facade/analytics_facade.go:41-48 | an accepted year gives all twelve months with Income and Expense entries, whose entries of a type add up to that type's yearly total |
| Commands.Channel.Send | application/commands/analytics_commands.go:48-50 | a send appends exactly the value |
| Commands.ByNameStep | application/commands/analytics_commands.go:94-98 | one loop step keeps the breakdown-by-name invariant |
| Commands.SplitByName | application/commands/analytics_commands.go:93-98 | the result's names are exactly the kept categories' names, each holding the amount of a kept category of that name |
| Commands.UniqueNamesDetermine | application/commands/analytics_commands.go:94-98 | with unique names among kept categories every kept category's amount is under its name |
| Commands.SameNameCollapses | application/commands/analytics_commands.go:96 | two kept categories of one name collapse into one entry holding one of their amounts |
| Commands.SplitIncomesFromRest | application/commands/analytics_commands.go:207-215 | Income categories go to incomes, every other category to expenses, each keyed by name |
| Commands.StatisticsCoverEveryCategory | application/commands/analytics_commands.go:209-215 | every category's name ends up among the incomes or the expenses |
| Commands.ExpensesHoldOnlyExpenseNames | application/commands/analytics_commands.go:94-98 | a name no expense category has never appears in the expense breakdown |
| Commands.BalanceByPeriodCommand.Execute | application/commands/analytics_commands.go:39-52 | on a facade error: the error is sent to the error channel if there is one, nothing is sent as a result, and the error is returned; otherwise the difference is sent to the result channel if there is one |
| Commands.ByCategoryCommand.Execute | application/commands/analytics_commands.go:83-104 | on a facade error, as above; otherwise exactly one breakdown by name of the categories of the command's type is sent |
| Commands.StatisticsCommand.Execute | application/commands/analytics_commands.go:187-228 | on a facade error, as above; otherwise one result carrying the facade's difference unchanged and the incomes/other split |

## Left out

- The console UI, cmd/main.go, file import and export, and dependency wiring are not part of this model. They are stdin/stdout, file codecs and construction order. An import is a sequence of repository Saves with explicit ids; `Persistence.Put` covers it.
- The repository's RWMutex and the DI container's mutex are not modelled; the model is sequential.
- Channel blocking is not modelled: `Commands.Channel.Send` always appends at once, whereas a Go send on an unbuffered channel waits until a receiver takes the value. The commands run to completion as if every receiver were ready.
- Amounts are integers, not float64, so rounding is not modelled. Dates have day granularity: times of day, time zones and the CreatedAt/UpdatedAt timestamps are not modelled. The current year that the analytics facade reads from the clock is a parameter.
- Listings are specified as the map they enumerate; the order in which Go's map iteration yields them is not modelled.
- The `String()` methods are not modelled. Neither are the services' `Get*`/`GetAll*` passthroughs: the facades call the repository queries, which are modelled, directly.
- The repository `Update` calls that follow an in-place change are folded into the write. They store the same object again, and the entity was fetched just before, so their error branch cannot be taken.
- Error branches that cannot be taken are not modelled as separate results: the repository queries' errors, which are never returned, and the second facade call in StatisticsCommand, which checks the same period as the first.
- The dead re-save at application/services/operation_service.go:186 is not modelled as a step. Its condition is always false, because line 164 has already set the account id.
- The command classes hold the repository their analytics facade reads, instead of a facade object: the facades are stateless functions of the store.
- ExpensesByCategoryCommand and IncomesByCategoryCommand are one class, `Commands.ByCategoryCommand`, with the kept type as a field. Name and constructor differ; Execute is the same.
- The latency decorator and the command name (command_base.go) are not modelled.
