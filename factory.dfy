/**
  The three entity factories (domain/factory). Each keeps its own `nextID`,
  starting at 1, builds an entity under that id, validates it, and advances the
  counter only when validation passes. `SetNextID` can only raise the counter.

  `BuildOperation`, `BuildBankAccount` and `BuildCategory` say what a creation
  yields for a given counter value; the classes are the factories themselves,
  whose `Create…` methods are proved to return exactly that.
*/
module Factory {
  import opened Models

  /** What OperationFactory.CreateOperation returns when its counter is nextId. */
  function BuildOperation(nextId: int, bankAccountId: int, categoryId: int, amount: int,
                          opType: OperationType, date: Date, description: string): (r: Result<Operation>)
    ensures r.Ok? <==>
      nextId > 0 && IsKnownType(opType) && bankAccountId > 0 && categoryId > 0 && amount > 0
    ensures r.Ok? ==>
      r.value == Operation(nextId, opType, bankAccountId, categoryId, amount, date, description)
    ensures r.Ok? ==> ValidateOperation(r.value) == Pass
    ensures r.Err? ==> r.error.Invalid?
  {
    var operation := Operation(nextId, opType, bankAccountId, categoryId, amount, date, description);
    match ValidateOperation(operation)
    case Pass => Ok(operation)
    case Fail(e) => Err(e)
  }

  /** What BankAccountFactory.CreateBankAccount returns when its counter is nextId:
      a new account always starts with a zero balance. */
  function BuildBankAccount(nextId: int, name: string): (r: Result<BankAccount>)
    ensures r.Ok? <==> name != "" && nextId > 0
    ensures r.Ok? ==> r.value == BankAccount(nextId, name, 0)
    ensures name == "" ==> r == Err(Invalid(AccountNameEmpty))
    ensures r.Err? ==> r.error.Invalid?
  {
    var account := BankAccount(nextId, name, 0);
    match ValidateBankAccount(account)
    case Pass => Ok(account)
    case Fail(e) => Err(e)
  }

  /** What CategoryFactory.CreateCategory returns when its counter is nextId. */
  function BuildCategory(nextId: int, name: string, opType: OperationType): (r: Result<Category>)
    ensures r.Ok? <==> name != "" && nextId > 0 && IsKnownType(opType)
    ensures r.Ok? ==> r.value == Category(nextId, opType, name)
    ensures name == "" ==> r == Err(Invalid(CategoryNameEmpty))
    ensures name != "" && nextId > 0 && !IsKnownType(opType) ==> r == Err(Invalid(CategoryTypeUnknown))
    ensures r.Err? ==> r.error.Invalid?
  {
    var category := Category(nextId, opType, name);
    match ValidateCategory(category)
    case Pass => Ok(category)
    case Fail(e) => Err(e)
  }

  /** The counter after SetNextID(id): raised to id when id is larger, else kept. */
  function Raised(nextId: int, id: int): (r: int)
    ensures r >= nextId && r >= id
    ensures r == nextId || r == id
  {
    if id > nextId then id else nextId
  }

  class OperationFactory {
    var nextId: int

    predicate Valid()
      reads this
    {
      nextId >= 1
    }

    constructor ()
      ensures Valid() && nextId == 1
    {
      nextId := 1;
    }

    /** On success the operation carries the old counter as its id and the
        counter moves on by one; on failure the counter stays. */
    method CreateOperation(bankAccountId: int, categoryId: int, amount: int,
                           opType: OperationType, date: Date, description: string)
      returns (r: Result<Operation>)
      requires Valid()
      modifies this
      ensures Valid()
      ensures r == BuildOperation(old(nextId), bankAccountId, categoryId, amount, opType, date, description)
      ensures nextId == if r.Ok? then old(nextId) + 1 else old(nextId)
      ensures r.Ok? ==> 0 < r.value.id < nextId
    {
      var operation := Operation(nextId, opType, bankAccountId, categoryId, amount, date, description);
      var check := ValidateOperation(operation);
      if check.Fail? {
        return Err(check.error);
      }
      nextId := nextId + 1;
      r := Ok(operation);
    }

    method SetNextId(id: int)
      requires Valid()
      modifies this
      ensures Valid()
      ensures nextId == Raised(old(nextId), id)
    {
      if id > nextId {
        nextId := id;
      }
    }
  }

  class BankAccountFactory {
    var nextId: int

    predicate Valid()
      reads this
    {
      nextId >= 1
    }

    constructor ()
      ensures Valid() && nextId == 1
    {
      nextId := 1;
    }

    method CreateBankAccount(name: string) returns (r: Result<BankAccount>)
      requires Valid()
      modifies this
      ensures Valid()
      ensures r == BuildBankAccount(old(nextId), name)
      ensures nextId == if r.Ok? then old(nextId) + 1 else old(nextId)
      ensures r.Ok? ==> 0 < r.value.id < nextId
    {
      var account := BankAccount(nextId, name, 0);
      var check := ValidateBankAccount(account);
      if check.Fail? {
        return Err(check.error);
      }
      nextId := nextId + 1;
      r := Ok(account);
    }

    method SetNextId(id: int)
      requires Valid()
      modifies this
      ensures Valid()
      ensures nextId == Raised(old(nextId), id)
    {
      if id > nextId {
        nextId := id;
      }
    }
  }

  class CategoryFactory {
    var nextId: int

    predicate Valid()
      reads this
    {
      nextId >= 1
    }

    constructor ()
      ensures Valid() && nextId == 1
    {
      nextId := 1;
    }

    method CreateCategory(name: string, opType: OperationType) returns (r: Result<Category>)
      requires Valid()
      modifies this
      ensures Valid()
      ensures r == BuildCategory(old(nextId), name, opType)
      ensures nextId == if r.Ok? then old(nextId) + 1 else old(nextId)
      ensures r.Ok? ==> 0 < r.value.id < nextId
    {
      var category := Category(nextId, opType, name);
      var check := ValidateCategory(category);
      if check.Fail? {
        return Err(check.error);
      }
      nextId := nextId + 1;
      r := Ok(category);
    }

    method SetNextId(id: int)
      requires Valid()
      modifies this
      ensures Valid()
      ensures nextId == Raised(old(nextId), id)
    {
      if id > nextId {
        nextId := id;
      }
    }
  }

  /** Successive successful creations hand out strictly increasing positive ids:
      each id is the counter before the call, and the counter only grows. */
  method CreatedIdsIncrease(f: OperationFactory, bankAccountId: int, categoryId: int,
                            amount: int, date: Date, description: string)
    returns (first: Result<Operation>, second: Result<Operation>)
    requires f.Valid()
    modifies f
    ensures first.Ok? && second.Ok? ==> 0 < first.value.id < second.value.id
    ensures bankAccountId > 0 && categoryId > 0 && amount > 0 ==>
      first.Ok? && second.Ok? && second.value.id == first.value.id + 1
  {
    first := f.CreateOperation(bankAccountId, categoryId, amount, Income, date, description);
    second := f.CreateOperation(bankAccountId, categoryId, amount, Income, date, description);
  }
}
