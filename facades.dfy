/**
  The operation facade (application/facade/operation_facade.go): input
  checks, then one call of the operation service. The facade has no state of
  its own, so each of its methods is a function of the store (and, for a
  creation, the operation factory's counter) whose value is the service
  call's, or the store unchanged with the first failed check's error.

  The facade takes an operation's type from its category, so a caller cannot
  ask for a type that disagrees with the category.
*/
module OperationFacade {
  import opened Models
  import opened Totals
  import opened Persistence
  import Ledger
  import Consistency

  /** CreateOperation: the account id, the category id and the amount are
      checked in that order, then the category is looked up, and the service
      is called with the category's type. */
  function CreateOperation(s: Store, nextId: int, bankAccountId: int, categoryId: int, amount: int,
                           date: Date, description: string): (r: Ledger.Created<Operation>)
    requires WellFormed(s)
    ensures WellFormed(r.store)
    ensures r.result.Err? ==> r.store == s && r.nextId == nextId
    ensures bankAccountId <= 0 ==> r.result == Err(Invalid(AccountIdNotPositive))
    ensures bankAccountId > 0 && categoryId <= 0 ==> r.result == Err(Invalid(CategoryIdNotPositive))
    ensures bankAccountId > 0 && categoryId > 0 && amount <= 0 ==> r.result == Err(Invalid(AmountNotPositive))
    ensures bankAccountId > 0 && categoryId > 0 && amount > 0 && categoryId !in s.categories.rows ==>
      r.result == Err(NotFound(CategoryEntity))
    ensures bankAccountId > 0 && categoryId > 0 && amount > 0 && categoryId in s.categories.rows ==>
      r == Ledger.CreateOperation(s, nextId, bankAccountId, categoryId, amount,
                                  s.categories.rows[categoryId].opType, date, description)
  {
    if bankAccountId <= 0 then Ledger.Created(s, nextId, Err(Invalid(AccountIdNotPositive)))
    else if categoryId <= 0 then Ledger.Created(s, nextId, Err(Invalid(CategoryIdNotPositive)))
    else if amount <= 0 then Ledger.Created(s, nextId, Err(Invalid(AmountNotPositive)))
    else
      match FindCategory(s, categoryId)
      case Err(e) => Ledger.Created(s, nextId, Err(e))
      case Ok(category) =>
        Ledger.CreateOperation(s, nextId, bankAccountId, categoryId, amount, category.opType, date, description)
  }

  /** Through the facade the service's type check never fires, and a created
      operation always has its category's type and a positive amount. */
  lemma CreateNeverMismatches(s: Store, nextId: int, bankAccountId: int, categoryId: int, amount: int,
                              date: Date, description: string)
    requires WellFormed(s)
    ensures var r := CreateOperation(s, nextId, bankAccountId, categoryId, amount, date, description);
      && r.result != Err(Invalid(TypeMismatch))
      && (r.result.Ok? ==>
            && categoryId in s.categories.rows
            && r.result.value.opType == s.categories.rows[categoryId].opType
            && r.result.value.amount > 0
            && ValidateOperation(r.result.value) == Pass)
  {
  }

  /** The facade looks the category up before the service looks the account
      up: with both missing, the facade reports the category and the service
      alone would report the account. */
  lemma CategoryReportedBeforeAccount(s: Store, nextId: int, bankAccountId: int, categoryId: int, amount: int,
                                      opType: OperationType, date: Date, description: string)
    requires WellFormed(s) && bankAccountId > 0 && categoryId > 0 && amount > 0
    requires bankAccountId !in s.accounts.rows && categoryId !in s.categories.rows
    ensures CreateOperation(s, nextId, bankAccountId, categoryId, amount, date, description).result
      == Err(NotFound(CategoryEntity))
    ensures Ledger.CreateOperation(s, nextId, bankAccountId, categoryId, amount, opType, date, description).result
      == Err(NotFound(BankAccountEntity))
  {
  }

  /** A creation through the facade keeps the ledger consistent. */
  lemma CreateKeepsConsistent(s: Store, nextId: int, bankAccountId: int, categoryId: int, amount: int,
                              date: Date, description: string)
    requires Ledger.Consistent(s) && s.operations.next <= nextId
    ensures var r := CreateOperation(s, nextId, bankAccountId, categoryId, amount, date, description);
      Ledger.Consistent(r.store) && r.store.operations.next <= r.nextId
  {
    if bankAccountId > 0 && categoryId > 0 && amount > 0 && categoryId in s.categories.rows {
      Consistency.CreateOperationKeepsConsistent(s, nextId, bankAccountId, categoryId, amount,
                                                 s.categories.rows[categoryId].opType, date, description);
    }
  }

  function GetOperationDetails(s: Store, id: int): (r: Result<Operation>)
    requires WellFormed(s)
    ensures id <= 0 ==> r == Err(Invalid(OperationIdNotPositive))
    ensures r.Ok? <==> id > 0 && id in s.operations.rows
    ensures r.Ok? ==> r.value == s.operations.rows[id] && r.value.id == id
    ensures id > 0 && id !in s.operations.rows ==> r == Err(NotFound(OperationEntity))
  {
    if id <= 0 then Err(Invalid(OperationIdNotPositive)) else FindOperation(s, id)
  }

  /** The operations of an account, as the map the listing enumerates; the
      order of the listing is not modelled. */
  function GetOperationsByBankAccount(s: Store, bankAccountId: int): (r: Result<map<int, Operation>>)
    ensures r.Err? <==> bankAccountId <= 0
    ensures r.Err? ==> r.error == Invalid(AccountIdNotPositive)
    ensures r.Ok? ==> forall k :: k in r.value <==>
      k in s.operations.rows && s.operations.rows[k].bankAccountId == bankAccountId
    ensures r.Ok? ==> forall k :: k in r.value ==> r.value[k] == s.operations.rows[k]
  {
    if bankAccountId <= 0 then Err(Invalid(AccountIdNotPositive))
    else Ok(Where(s.operations.rows, OfAccount(bankAccountId)))
  }

  function GetOperationsByCategory(s: Store, categoryId: int): (r: Result<map<int, Operation>>)
    ensures r.Err? <==> categoryId <= 0
    ensures r.Err? ==> r.error == Invalid(CategoryIdNotPositive)
    ensures r.Ok? ==> forall k :: k in r.value <==>
      k in s.operations.rows && s.operations.rows[k].categoryId == categoryId
    ensures r.Ok? ==> forall k :: k in r.value ==> r.value[k] == s.operations.rows[k]
  {
    if categoryId <= 0 then Err(Invalid(CategoryIdNotPositive))
    else Ok(Where(s.operations.rows, OfCategory(categoryId)))
  }

  /** The operations of a closed period; a period whose start lies after its
      end is refused. */
  function GetOperationsByDateRange(s: Store, start: Date, end: Date): (r: Result<map<int, Operation>>)
    ensures r.Err? <==> After(start, end)
    ensures r.Err? ==> r.error == Invalid(StartAfterEnd)
    ensures r.Ok? ==> forall k :: k in r.value <==>
      k in s.operations.rows && InPeriod(s.operations.rows[k].date, start, end)
    ensures r.Ok? ==> forall k :: k in r.value ==> r.value[k] == s.operations.rows[k]
  {
    if After(start, end) then Err(Invalid(StartAfterEnd))
    else Ok(Where(s.operations.rows, Between(start, end)))
  }

  /** A period of one day is accepted and holds exactly that day's operations. */
  lemma OneDayPeriod(s: Store, day: Date)
    ensures var r := GetOperationsByDateRange(s, day, day);
      && r.Ok?
      && (forall k :: k in r.value <==> k in s.operations.rows && s.operations.rows[k].date == day)
      && (forall k :: k in r.value ==> r.value[k] == s.operations.rows[k])
  {
    forall k | k in s.operations.rows && InPeriod(s.operations.rows[k].date, day, day)
      ensures s.operations.rows[k].date == day
    {
      var d := s.operations.rows[k].date;
      assert d.year == day.year && d.month == day.month && d.day == day.day;
    }
  }

  /** UpdateOperation: the operation id, the account id, the category id and
      the amount are checked in that order, then the category is looked up,
      and the service is called with the category's type. */
  function UpdateOperation(s: Store, id: int, bankAccountId: int, categoryId: int, amount: int,
                           date: Date, description: string): (r: Ledger.Step<Operation>)
    requires WellFormed(s)
    ensures WellFormed(r.store)
    ensures id <= 0 ==> r == Ledger.Step(s, Err(Invalid(OperationIdNotPositive)))
    ensures id > 0 && bankAccountId <= 0 ==> r == Ledger.Step(s, Err(Invalid(AccountIdNotPositive)))
    ensures id > 0 && bankAccountId > 0 && categoryId <= 0 ==>
      r == Ledger.Step(s, Err(Invalid(CategoryIdNotPositive)))
    ensures id > 0 && bankAccountId > 0 && categoryId > 0 && amount <= 0 ==>
      r == Ledger.Step(s, Err(Invalid(AmountNotPositive)))
    ensures id > 0 && bankAccountId > 0 && categoryId > 0 && amount > 0 && categoryId !in s.categories.rows ==>
      r == Ledger.Step(s, Err(NotFound(CategoryEntity)))
    ensures id > 0 && bankAccountId > 0 && categoryId > 0 && amount > 0 && categoryId in s.categories.rows ==>
      r == Ledger.UpdateOperation(s, id, bankAccountId, categoryId, amount,
                                  s.categories.rows[categoryId].opType, date, description)
  {
    if id <= 0 then Ledger.Step(s, Err(Invalid(OperationIdNotPositive)))
    else if bankAccountId <= 0 then Ledger.Step(s, Err(Invalid(AccountIdNotPositive)))
    else if categoryId <= 0 then Ledger.Step(s, Err(Invalid(CategoryIdNotPositive)))
    else if amount <= 0 then Ledger.Step(s, Err(Invalid(AmountNotPositive)))
    else
      match FindCategory(s, categoryId)
      case Err(e) => Ledger.Step(s, Err(e))
      case Ok(category) =>
        Ledger.UpdateOperation(s, id, bankAccountId, categoryId, amount, category.opType, date, description)
  }

  /** Through the facade an update never fails the type check, and a
      successful one keeps the ledger consistent. */
  lemma UpdateKeepsConsistent(s: Store, id: int, bankAccountId: int, categoryId: int, amount: int,
                              date: Date, description: string)
    requires Ledger.Consistent(s)
    ensures var r := UpdateOperation(s, id, bankAccountId, categoryId, amount, date, description);
      && r.result != Err(Invalid(TypeMismatch))
      && (r.result.Ok? ==> Ledger.Consistent(r.store))
  {
    if id > 0 && bankAccountId > 0 && categoryId > 0 && amount > 0 && categoryId in s.categories.rows {
      Consistency.UpdateOperationKeepsConsistent(s, id, bankAccountId, categoryId, amount,
                                                 s.categories.rows[categoryId].opType, date, description);
    }
  }

  /** The facade checks the new category but not the new account: an unknown
      account id still fails after the old account's reversal, which stays, so
      the balances no longer match. */
  lemma UnknownAccountBreaksBalances(s: Store, id: int, bankAccountId: int, categoryId: int, amount: int,
                                     date: Date, description: string)
    requires Ledger.Consistent(s) && id in s.operations.rows && s.operations.rows[id].amount != 0
    requires bankAccountId > 0 && bankAccountId !in s.accounts.rows
    requires id > 0 && categoryId > 0 && categoryId in s.categories.rows && amount > 0
    ensures var r := UpdateOperation(s, id, bankAccountId, categoryId, amount, date, description);
      r.result == Err(NotFound(BankAccountEntity)) && !Ledger.BalancesMatch(r.store)
  {
    var opType := s.categories.rows[categoryId].opType;
    var prior := s.operations.rows[id];
    assert prior.bankAccountId in s.accounts.rows;
    var account := s.accounts.rows[prior.bankAccountId];
    var reversed := account.(balance := account.balance - Weight(prior, Signed));
    var s1 := Ledger.WriteAccount(s, reversed);
    assert FindAccount(s1, bankAccountId) == Err(NotFound(BankAccountEntity));
    assert Ledger.Retarget(s1, prior, reversed, bankAccountId, categoryId, amount, opType, date, description).result
      == Err(NotFound(BankAccountEntity));
    assert Ledger.UpdateOperation(s, id, bankAccountId, categoryId, amount, opType, date, description).result
      == Err(NotFound(BankAccountEntity));
    Consistency.FailedUpdateKeepsReversal(s, id, bankAccountId, categoryId, amount, opType, date, description);
  }

  function DeleteOperation(s: Store, id: int): (r: Ledger.Effect)
    requires WellFormed(s)
    ensures WellFormed(r.store)
    ensures id <= 0 ==> r == Ledger.Effect(s, Fail(Invalid(OperationIdNotPositive)))
    ensures id > 0 ==> r == Ledger.DeleteOperation(s, id)
  {
    if id <= 0 then Ledger.Effect(s, Fail(Invalid(OperationIdNotPositive)))
    else Ledger.DeleteOperation(s, id)
  }

  /** Every call of the facade that changes the store keeps the ledger
      consistent when it succeeds, and a deletion keeps it in any case. */
  lemma DeleteKeepsConsistent(s: Store, id: int)
    requires Ledger.Consistent(s)
    ensures Ledger.Consistent(DeleteOperation(s, id).store)
  {
    if id > 0 {
      Consistency.DeleteOperationKeepsConsistent(s, id);
    }
  }
}

/**
  The bank account facade (application/facade/bank_account_facade.go).
*/
module BankAccountFacade {
  import opened Models
  import opened Persistence
  import Ledger
  import Consistency

  function CreateBankAccount(s: Store, nextId: int, name: string): (r: Ledger.Created<BankAccount>)
    requires WellFormed(s)
    ensures WellFormed(r.store)
    ensures name == "" ==> r == Ledger.Created(s, nextId, Err(Invalid(AccountNameEmpty)))
    ensures name != "" ==> r == Ledger.CreateBankAccount(s, nextId, name)
  {
    if name == "" then Ledger.Created(s, nextId, Err(Invalid(AccountNameEmpty)))
    else Ledger.CreateBankAccount(s, nextId, name)
  }

  /** A creation succeeds exactly when the name is not empty and the factory's
      counter is positive, and gives a new account with a zero balance. */
  lemma CreateBankAccountOutcome(s: Store, nextId: int, name: string)
    requires WellFormed(s)
    ensures var r := CreateBankAccount(s, nextId, name);
      && (r.result.Ok? <==> name != "" && nextId > 0)
      && (r.result.Ok? ==> r.result.value == BankAccount(nextId, name, 0) && r.nextId == nextId + 1)
  {
  }

  function GetBankAccount(s: Store, id: int): (r: Result<BankAccount>)
    requires WellFormed(s)
    ensures id <= 0 ==> r == Err(Invalid(AccountIdNotPositive))
    ensures r.Ok? <==> id > 0 && id in s.accounts.rows
    ensures r.Ok? ==> r.value == s.accounts.rows[id]
    ensures id > 0 && id !in s.accounts.rows ==> r == Err(NotFound(BankAccountEntity))
  {
    if id <= 0 then Err(Invalid(AccountIdNotPositive)) else FindAccount(s, id)
  }

  /** UpdateBankAccount: the id before the name. */
  function UpdateBankAccount(s: Store, id: int, name: string): (r: Ledger.Step<BankAccount>)
    requires WellFormed(s)
    ensures WellFormed(r.store)
    ensures id <= 0 ==> r == Ledger.Step(s, Err(Invalid(AccountIdNotPositive)))
    ensures id > 0 && name == "" ==> r == Ledger.Step(s, Err(Invalid(AccountNameEmpty)))
    ensures id > 0 && name != "" ==> r == Ledger.UpdateBankAccount(s, id, name)
  {
    if id <= 0 then Ledger.Step(s, Err(Invalid(AccountIdNotPositive)))
    else if name == "" then Ledger.Step(s, Err(Invalid(AccountNameEmpty)))
    else Ledger.UpdateBankAccount(s, id, name)
  }

  /** The facade's checks are the ones Validate makes after the service has
      already renamed the stored account, so through the facade a rename is
      all or nothing: it either succeeds or leaves the store as it was. */
  lemma UpdateBankAccountAllOrNothing(s: Store, id: int, name: string)
    requires WellFormed(s)
    ensures var r := UpdateBankAccount(s, id, name);
      && (r.result.Err? ==> r.store == s)
      && (r.result.Ok? <==> id > 0 && name != "" && id in s.accounts.rows)
      && (r.result.Ok? ==> r.store.accounts.rows[id] == s.accounts.rows[id].(name := name))
  {
  }

  function DeleteBankAccount(s: Store, id: int): (r: Ledger.Effect)
    requires WellFormed(s)
    ensures WellFormed(r.store)
    ensures id <= 0 ==> r == Ledger.Effect(s, Fail(Invalid(AccountIdNotPositive)))
    ensures id > 0 ==> r == Ledger.DeleteBankAccount(s, id)
  {
    if id <= 0 then Ledger.Effect(s, Fail(Invalid(AccountIdNotPositive)))
    else Ledger.DeleteBankAccount(s, id)
  }

  function RecalculateBalance(s: Store, id: int): (r: Ledger.Step<BankAccount>)
    requires WellFormed(s)
    ensures WellFormed(r.store)
    ensures id <= 0 ==> r == Ledger.Step(s, Err(Invalid(AccountIdNotPositive)))
    ensures id > 0 ==> r == Ledger.RecalculateBalance(s, id)
  {
    if id <= 0 then Ledger.Step(s, Err(Invalid(AccountIdNotPositive)))
    else Ledger.RecalculateBalance(s, id)
  }

  /** No call of the account facade can break a consistent ledger. */
  lemma AccountFacadeKeepsConsistent(s: Store, nextId: int, id: int, name: string)
    requires Ledger.Consistent(s) && s.accounts.next <= nextId
    ensures Ledger.Consistent(CreateBankAccount(s, nextId, name).store)
    ensures Ledger.Consistent(UpdateBankAccount(s, id, name).store)
    ensures Ledger.Consistent(DeleteBankAccount(s, id).store)
    ensures Ledger.Consistent(RecalculateBalance(s, id).store)
  {
    Consistency.CreateBankAccountKeepsConsistent(s, nextId, name);
    Consistency.UpdateBankAccountKeepsConsistent(s, id, name);
    Consistency.DeleteBankAccountKeepsConsistent(s, id);
    if id > 0 {
      Consistency.RecalculateOnConsistentIsNoOp(s, id);
    }
  }
}

/**
  The category facade (application/facade/category_facade.go).
*/
module CategoryFacade {
  import opened Models
  import opened Persistence
  import Ledger
  import Consistency

  /** CreateCategory: the name, then the type. */
  function CreateCategory(s: Store, nextId: int, name: string, opType: OperationType): (r: Ledger.Created<Category>)
    requires WellFormed(s)
    ensures WellFormed(r.store)
    ensures name == "" ==> r == Ledger.Created(s, nextId, Err(Invalid(CategoryNameEmpty)))
    ensures name != "" && !IsKnownType(opType) ==> r == Ledger.Created(s, nextId, Err(Invalid(CategoryTypeUnknown)))
    ensures name != "" && IsKnownType(opType) ==> r == Ledger.CreateCategory(s, nextId, name, opType)
  {
    if name == "" then Ledger.Created(s, nextId, Err(Invalid(CategoryNameEmpty)))
    else if !IsKnownType(opType) then Ledger.Created(s, nextId, Err(Invalid(CategoryTypeUnknown)))
    else Ledger.CreateCategory(s, nextId, name, opType)
  }

  /** With a positive counter the facade refuses exactly what Validate
      refuses, with the same error: its checks repeat Validate's, in the same
      order, for the category the factory would build. */
  lemma CreateCategoryChecksAreValidate(s: Store, nextId: int, name: string, opType: OperationType)
    requires WellFormed(s) && nextId > 0
    ensures var r := CreateCategory(s, nextId, name, opType);
      match ValidateCategory(Category(nextId, opType, name))
      case Pass => r.result == Ok(Category(nextId, opType, name))
      case Fail(e) => r.result == Err(e) && r.store == s
  {
  }

  function GetCategory(s: Store, id: int): (r: Result<Category>)
    requires WellFormed(s)
    ensures id <= 0 ==> r == Err(Invalid(CategoryIdNotPositive))
    ensures r.Ok? <==> id > 0 && id in s.categories.rows
    ensures r.Ok? ==> r.value == s.categories.rows[id]
    ensures id > 0 && id !in s.categories.rows ==> r == Err(NotFound(CategoryEntity))
  {
    if id <= 0 then Err(Invalid(CategoryIdNotPositive)) else FindCategory(s, id)
  }

  /** The categories of one type, as the map the listing enumerates. */
  function GetCategoriesByType(s: Store, opType: OperationType): (r: Result<map<int, Category>>)
    ensures r.Err? <==> !IsKnownType(opType)
    ensures r.Err? ==> r.error == Invalid(CategoryTypeUnknown)
    ensures r.Ok? ==> forall k :: k in r.value <==>
      k in s.categories.rows && s.categories.rows[k].opType == opType
    ensures r.Ok? ==> forall k :: k in r.value ==> r.value[k] == s.categories.rows[k]
  {
    if !IsKnownType(opType) then Err(Invalid(CategoryTypeUnknown))
    else Ok(OfKind(s.categories.rows, opType))
  }

  /** UpdateCategory: the id, then the name, then the type. */
  function UpdateCategory(s: Store, id: int, name: string, opType: OperationType): (r: Ledger.Step<Category>)
    requires WellFormed(s)
    ensures WellFormed(r.store)
    ensures id <= 0 ==> r == Ledger.Step(s, Err(Invalid(CategoryIdNotPositive)))
    ensures id > 0 && name == "" ==> r == Ledger.Step(s, Err(Invalid(CategoryNameEmpty)))
    ensures id > 0 && name != "" && !IsKnownType(opType) ==>
      r == Ledger.Step(s, Err(Invalid(CategoryTypeUnknown)))
    ensures id > 0 && name != "" && IsKnownType(opType) ==> r == Ledger.UpdateCategory(s, id, name, opType)
  {
    if id <= 0 then Ledger.Step(s, Err(Invalid(CategoryIdNotPositive)))
    else if name == "" then Ledger.Step(s, Err(Invalid(CategoryNameEmpty)))
    else if !IsKnownType(opType) then Ledger.Step(s, Err(Invalid(CategoryTypeUnknown)))
    else Ledger.UpdateCategory(s, id, name, opType)
  }

  /** Through the facade an update is all or nothing: a rejected name or type
      never reaches the store. */
  lemma UpdateCategoryAllOrNothing(s: Store, id: int, name: string, opType: OperationType)
    requires WellFormed(s)
    ensures var r := UpdateCategory(s, id, name, opType);
      && (r.result.Err? ==> r.store == s)
      && (r.result.Ok? <==> id > 0 && name != "" && IsKnownType(opType) && id in s.categories.rows)
  {
  }

  /** The facade checks the new type only for being a known one: retyping a
      category that an operation uses still leaves that operation with the
      other type. */
  lemma RetypingStillBreaksKinds(s: Store, k: int, name: string, opType: OperationType)
    requires Ledger.Consistent(s) && k in s.operations.rows && s.operations.rows[k].opType != opType
    requires s.operations.rows[k].categoryId > 0 && name != "" && IsKnownType(opType)
    ensures var r := UpdateCategory(s, s.operations.rows[k].categoryId, name, opType);
      r.result.Ok? && !Ledger.KindsMatch(r.store)
  {
    Consistency.RetypingBreaksKinds(s, k, name, opType);
  }

  function DeleteCategory(s: Store, id: int): (r: Ledger.Effect)
    requires WellFormed(s)
    ensures WellFormed(r.store)
    ensures id <= 0 ==> r == Ledger.Effect(s, Fail(Invalid(CategoryIdNotPositive)))
    ensures id > 0 ==> r == Ledger.DeleteCategory(s, id)
  {
    if id <= 0 then Ledger.Effect(s, Fail(Invalid(CategoryIdNotPositive)))
    else Ledger.DeleteCategory(s, id)
  }
}

/**
  The analytics facade (application/facade/analytics_facade.go). The current
  year, which Go reads from the clock, is a parameter.
*/
module AnalyticsFacade {
  import opened Models
  import opened Totals
  import opened Persistence
  import Analytics

  /** The lowest year GetMonthlyDynamics accepts. */
  const FirstYear := 2000

  function GetIncomeExpenseDifference(s: Store, start: Date, end: Date): (r: Result<int>)
    ensures r.Err? <==> After(start, end)
    ensures r.Err? ==> r.error == PeriodReversed
    ensures r.Ok? ==> r.value == Analytics.Difference(s, start, end)
  {
    if After(start, end) then Err(PeriodReversed) else Ok(Analytics.Difference(s, start, end))
  }

  function GetCategorySummary(s: Store, start: Date, end: Date): (r: Result<map<Category, int>>)
    ensures r.Err? <==> After(start, end)
    ensures r.Err? ==> r.error == PeriodReversed
    ensures r.Ok? ==> r.value == Analytics.CategorySummary(s, start, end)
  {
    if After(start, end) then Err(PeriodReversed) else Ok(Analytics.CategorySummary(s, start, end))
  }

  /** A period of one day is accepted by both period queries. */
  lemma OneDayAccepted(s: Store, day: Date)
    ensures GetIncomeExpenseDifference(s, day, day).Ok? && GetCategorySummary(s, day, day).Ok?
  {
  }

  function GetMonthlyDynamics(s: Store, year: int, currentYear: int): (r: Result<map<Month, map<OperationType, int>>>)
    ensures r.Err? <==> year < FirstYear || year > currentYear + 1
    ensures r.Err? ==> r.error == YearOutOfRange(currentYear + 1)
    ensures r.Ok? ==> r.value == Analytics.MonthlyDynamics(s, year)
  {
    if year < FirstYear || year > currentYear + 1 then Err(YearOutOfRange(currentYear + 1))
    else Ok(Analytics.MonthlyDynamics(s, year))
  }

  /** An accepted year gives all twelve months, each with Income and Expense
      entries, and each type's entries add up to that type's total over the
      year. */
  lemma MonthlyDynamicsOfAcceptedYear(s: Store, year: int, currentYear: int, t: OperationType)
    requires FirstYear <= year <= currentYear + 1
    ensures var r := GetMonthlyDynamics(s, year, currentYear);
      && r.Ok?
      && (forall month: Month :: month in r.value && Income in r.value[month] && Expense in r.value[month])
      && Analytics.MonthsSum(r.value, t, 12) ==
           Total(Where(Where(s.operations.rows, Between(Analytics.YearStart(year), Analytics.YearEnd(year))),
                       OfType(t)), Unsigned)
  {
    var m := Where(s.operations.rows, Between(Analytics.YearStart(year), Analytics.YearEnd(year)));
    Analytics.MonthlyShape(m);
    Analytics.MonthlyAddsUpToYear(s, year, t);
  }
}
