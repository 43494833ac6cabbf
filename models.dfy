/**
  Domain entities of the ledger (domain/models) and their Validate rules.

  Amounts are whole numbers of the smallest currency unit, so that every sum
  below is exact. Timestamps (CreatedAt, UpdatedAt) are not modelled.
*/
module Models {

  /** Kind of an operation or category. The source declares it as a string
      type with the two constants INCOME and EXPENSE; `Unknown` stands for any
      other string, which only validation and the facades' guards reject. */
  datatype OperationType = Income | Expense | Unknown(tag: string)

  /** One of the two declared constants. */
  predicate IsKnownType(t: OperationType)
  {
    t == Income || t == Expense
  }

  type Month = m: int | 1 <= m <= 12 witness 1
  type Day = d: int | 1 <= d <= 31 witness 1

  /** A calendar day; time of day and time zones are not modelled. */
  datatype Date = Date(year: int, month: Month, day: Day)

  /** `a` lies strictly later than `b` (time.Time.After at day granularity). */
  predicate After(a: Date, b: Date)
  {
    || a.year > b.year
    || (a.year == b.year && a.month > b.month)
    || (a.year == b.year && a.month == b.month && a.day > b.day)
  }

  datatype BankAccount = BankAccount(id: int, name: string, balance: int)

  datatype Category = Category(id: int, opType: OperationType, name: string)

  datatype Operation = Operation(
    id: int,
    opType: OperationType,
    bankAccountId: int,
    categoryId: int,
    amount: int,
    date: Date,
    description: string)

  /** The distinct messages of models.ValidationError used by the core. */
  datatype Violation =
    | OperationIdNotPositive
    | OperationTypeUnknown
    | AccountIdNotPositive
    | CategoryIdNotPositive
    | AmountNotPositive
    | AccountNameEmpty
    | CategoryNameEmpty
    | CategoryTypeUnknown
    | TypeMismatch
    | StartAfterEnd

  datatype Entity = BankAccountEntity | CategoryEntity | OperationEntity

  datatype Error =
    | Invalid(violation: Violation)       // a models.ValidationError
    | NotFound(entity: Entity)            // the repository's "not found" errors
    | HasOperations(entity: Entity)       // refusal to delete a referenced account or category
    | PeriodReversed                      // the analytics facade's start-after-end error
    | YearOutOfRange(maxYear: int)        // the analytics facade's year bound error

  datatype Result<T> = Ok(value: T) | Err(error: Error)

  /** What a Go function returning only `error` returns: nil or an error. */
  datatype Outcome = Pass | Fail(error: Error)

  /** Operation.Validate: five checks, the first failing one is reported. */
  function ValidateOperation(o: Operation): (r: Outcome)
    ensures r == Pass <==>
      o.id > 0 && IsKnownType(o.opType) && o.bankAccountId > 0 && o.categoryId > 0 && o.amount > 0
    ensures o.id <= 0 ==> r == Fail(Invalid(OperationIdNotPositive))
    ensures o.id > 0 && !IsKnownType(o.opType) ==> r == Fail(Invalid(OperationTypeUnknown))
    ensures o.id > 0 && IsKnownType(o.opType) && o.bankAccountId <= 0 ==>
      r == Fail(Invalid(AccountIdNotPositive))
    ensures o.id > 0 && IsKnownType(o.opType) && o.bankAccountId > 0 && o.categoryId <= 0 ==>
      r == Fail(Invalid(CategoryIdNotPositive))
    ensures o.id > 0 && IsKnownType(o.opType) && o.bankAccountId > 0 && o.categoryId > 0 && o.amount <= 0 ==>
      r == Fail(Invalid(AmountNotPositive))
  {
    if o.id <= 0 then Fail(Invalid(OperationIdNotPositive))
    else if o.opType != Income && o.opType != Expense then Fail(Invalid(OperationTypeUnknown))
    else if o.bankAccountId <= 0 then Fail(Invalid(AccountIdNotPositive))
    else if o.categoryId <= 0 then Fail(Invalid(CategoryIdNotPositive))
    else if o.amount <= 0 then Fail(Invalid(AmountNotPositive))
    else Pass
  }

  /** Category.Validate: the name is checked first, then the id, then the type. */
  function ValidateCategory(c: Category): (r: Outcome)
    ensures r == Pass <==> c.name != "" && c.id > 0 && IsKnownType(c.opType)
    ensures c.name == "" ==> r == Fail(Invalid(CategoryNameEmpty))
    ensures c.name != "" && c.id <= 0 ==> r == Fail(Invalid(CategoryIdNotPositive))
    ensures c.name != "" && c.id > 0 && !IsKnownType(c.opType) ==> r == Fail(Invalid(CategoryTypeUnknown))
  {
    if c.name == "" then Fail(Invalid(CategoryNameEmpty))
    else if c.id <= 0 then Fail(Invalid(CategoryIdNotPositive))
    else if c.opType != Income && c.opType != Expense then Fail(Invalid(CategoryTypeUnknown))
    else Pass
  }

  /** BankAccount.Validate: the name before the id; the balance is not checked
      and may be negative. */
  function ValidateBankAccount(a: BankAccount): (r: Outcome)
    ensures r == Pass <==> a.name != "" && a.id > 0
    ensures a.name == "" ==> r == Fail(Invalid(AccountNameEmpty))
    ensures a.name != "" && a.id <= 0 ==> r == Fail(Invalid(AccountIdNotPositive))
  {
    if a.name == "" then Fail(Invalid(AccountNameEmpty))
    else if a.id <= 0 then Fail(Invalid(AccountIdNotPositive))
    else Pass
  }
}
