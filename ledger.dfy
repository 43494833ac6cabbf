/**
  What the three ledger services do to the store (application/services).

  Each service call is a function from the store before the call to the store
  after it and the call's result. Go's services change fetched entities in
  place; since GetByID returns the stored pointer, such a change is in the
  store from that moment on, whatever the call does afterwards. `WriteAccount`,
  `WriteCategory` and `WriteOperation` are those in-place changes. The
  repository Update that follows each of them stores the same object again and
  cannot fail, since the entity was fetched a moment before; it is folded into
  the write.

  The central property: if every account's balance equals the signed sum of
  the operations that reference it (`BalancesMatch`), every successful Create,
  Update or Delete of an operation keeps it so.
*/
module Ledger {
  import opened Models
  import opened Listings
  import opened Totals
  import opened Factory
  import opened Persistence

  /** A service call whose Go result is (value, error). */
  datatype Step<T> = Step(store: Store, result: Result<T>)

  /** A creation, which also moves its factory's counter. */
  datatype Created<T> = Created(store: Store, nextId: int, result: Result<T>)

  /** A service call whose Go result is only an error. */
  datatype Effect = Effect(store: Store, outcome: Outcome)

  /** An in-place change of a fetched account, visible in the store at once. */
  function WriteAccount(s: Store, a: BankAccount): Store
  {
    s.(accounts := s.accounts.(rows := s.accounts.rows[a.id := a]))
  }

  function WriteCategory(s: Store, c: Category): Store
  {
    s.(categories := s.categories.(rows := s.categories.rows[c.id := c]))
  }

  function WriteOperation(s: Store, o: Operation): Store
  {
    s.(operations := s.operations.(rows := s.operations.rows[o.id := o]))
  }

  // ---- invariants ----

  /** The reference definition of an account's balance: income operations add
      their amount, every other operation subtracts it. */
  function Balance(s: Store, accountId: int): int
  {
    Total(Where(s.operations.rows, OfAccount(accountId)), Signed)
  }

  predicate BalancesMatch(s: Store)
  {
    forall a :: a in s.accounts.rows ==> s.accounts.rows[a].balance == Balance(s, a)
  }

  /** Every operation's account is stored. */
  predicate AccountsExist(s: Store)
  {
    forall k :: k in s.operations.rows ==> s.operations.rows[k].bankAccountId in s.accounts.rows
  }

  /** Every operation's category is stored. */
  predicate CategoriesExist(s: Store)
  {
    forall k :: k in s.operations.rows ==> s.operations.rows[k].categoryId in s.categories.rows
  }

  /** Every operation has its category's type. */
  predicate KindsMatch(s: Store)
  {
    forall k :: k in s.operations.rows && s.operations.rows[k].categoryId in s.categories.rows ==>
      s.categories.rows[s.operations.rows[k].categoryId].opType == s.operations.rows[k].opType
  }

  predicate Consistent(s: Store)
  {
    WellFormed(s) && AccountsExist(s) && CategoriesExist(s) && KindsMatch(s) && BalancesMatch(s)
  }

  // ---- OperationServiceImpl ----

  /** CreateOperation: account, then category, then the type check, then the
      factory; on success the operation is saved and its account's balance
      moves by its signed amount. Every failure leaves store and counter as
      they were. */
  function CreateOperation(s: Store, nextId: int, bankAccountId: int, categoryId: int, amount: int,
                           opType: OperationType, date: Date, description: string): (r: Created<Operation>)
    requires WellFormed(s)
    ensures WellFormed(r.store)
    ensures r.result.Err? ==> r.store == s && r.nextId == nextId
    ensures bankAccountId !in s.accounts.rows ==> r.result == Err(NotFound(BankAccountEntity))
    ensures bankAccountId in s.accounts.rows && categoryId !in s.categories.rows ==>
      r.result == Err(NotFound(CategoryEntity))
    ensures (bankAccountId in s.accounts.rows && categoryId in s.categories.rows
             && s.categories.rows[categoryId].opType != opType) ==> r.result == Err(Invalid(TypeMismatch))
    ensures r.result.Ok? <==>
      && bankAccountId in s.accounts.rows && categoryId in s.categories.rows
      && s.categories.rows[categoryId].opType == opType
      && BuildOperation(nextId, bankAccountId, categoryId, amount, opType, date, description).Ok?
    ensures (bankAccountId in s.accounts.rows && categoryId in s.categories.rows
             && s.categories.rows[categoryId].opType == opType
             && BuildOperation(nextId, bankAccountId, categoryId, amount, opType, date, description).Err?) ==>
      r.result == BuildOperation(nextId, bankAccountId, categoryId, amount, opType, date, description)
    ensures r.result.Ok? ==>
      && r.nextId == nextId + 1
      && r.result.value == Operation(nextId, opType, bankAccountId, categoryId, amount, date, description)
      && r.store.operations.rows == s.operations.rows[nextId := r.result.value]
      && r.store.accounts.rows == s.accounts.rows[bankAccountId :=
           s.accounts.rows[bankAccountId].(balance :=
             s.accounts.rows[bankAccountId].balance + Weight(r.result.value, Signed))]
      && r.store.categories == s.categories
  {
    match FindAccount(s, bankAccountId)
    case Err(e) => Created(s, nextId, Err(e))
    case Ok(account) =>
      match FindCategory(s, categoryId)
      case Err(e) => Created(s, nextId, Err(e))
      case Ok(category) =>
        if category.opType != opType then Created(s, nextId, Err(Invalid(TypeMismatch)))
        else
          match BuildOperation(nextId, bankAccountId, categoryId, amount, opType, date, description)
          case Err(e) => Created(s, nextId, Err(e))
          case Ok(operation) =>
            var (s1, saved) := PutOperation(s, operation);
            var s2 := WriteAccount(s1, account.(balance := account.balance + Weight(operation, Signed)));
            Created(s2, nextId + 1, Ok(saved))
  }

  /** UpdateOperation. The prior account's balance is reversed (lines 135-139)
      before the new account and the category are checked, and the reversal is
      in the store from then on: a failure after it returns the error with the
      reversal kept. The operation itself changes only when every check passes. */
  function UpdateOperation(s: Store, id: int, bankAccountId: int, categoryId: int, amount: int,
                           opType: OperationType, date: Date, description: string): (r: Step<Operation>)
    requires WellFormed(s)
    ensures WellFormed(r.store)
    ensures id !in s.operations.rows ==> r == Step(s, Err(NotFound(OperationEntity)))
    ensures id in s.operations.rows && s.operations.rows[id].bankAccountId !in s.accounts.rows ==>
      r == Step(s, Err(NotFound(BankAccountEntity)))
    ensures r.result.Err? && id in s.operations.rows && s.operations.rows[id].bankAccountId in s.accounts.rows ==>
      var prior := s.operations.rows[id];
      var account := s.accounts.rows[prior.bankAccountId];
      r.store == WriteAccount(s, account.(balance := account.balance - Weight(prior, Signed)))
    ensures id in s.operations.rows && s.operations.rows[id].bankAccountId in s.accounts.rows ==>
      && (bankAccountId !in s.accounts.rows ==> r.result == Err(NotFound(BankAccountEntity)))
      && (bankAccountId in s.accounts.rows && categoryId !in s.categories.rows ==>
            r.result == Err(NotFound(CategoryEntity)))
      && ((bankAccountId in s.accounts.rows && categoryId in s.categories.rows
           && s.categories.rows[categoryId].opType != opType) ==> r.result == Err(Invalid(TypeMismatch)))
      && ((bankAccountId in s.accounts.rows && categoryId in s.categories.rows
           && s.categories.rows[categoryId].opType == opType) ==> r.result.Ok?)
    ensures r.result.Ok? ==>
      var prior := s.operations.rows[id];
      && id in s.operations.rows
      && r.result.value == Operation(id, opType, bankAccountId, categoryId, amount, date, description)
      && r.store.operations.rows == s.operations.rows[id := r.result.value]
      && r.store.operations.next == s.operations.next
      && r.store.categories == s.categories
      && r.store.accounts.next == s.accounts.next
      && r.store.accounts.rows.Keys == s.accounts.rows.Keys
      && bankAccountId in s.accounts.rows && categoryId in s.categories.rows
      && s.categories.rows[categoryId].opType == opType
      && forall a :: a in s.accounts.rows ==>
           r.store.accounts.rows[a] == s.accounts.rows[a].(balance :=
             s.accounts.rows[a].balance
             - (if a == prior.bankAccountId then Weight(prior, Signed) else 0)
             + (if a == bankAccountId then Weight(r.result.value, Signed) else 0))
  {
    match FindOperation(s, id)
    case Err(e) => Step(s, Err(e))
    case Ok(prior) =>
      match FindAccount(s, prior.bankAccountId)
      case Err(e) => Step(s, Err(e))
      case Ok(oldAccount) =>
        var reversed := oldAccount.(balance := oldAccount.balance - Weight(prior, Signed));
        Retarget(WriteAccount(s, reversed), prior, reversed, bankAccountId, categoryId, amount, opType, date, description)
  }

  /** Once the operation and its prior account are found, UpdateOperation is
      the reversal followed by Retarget. */
  lemma UpdateIsReversalThenRetarget(s: Store, id: int, bankAccountId: int, categoryId: int, amount: int,
                                     opType: OperationType, date: Date, description: string)
    requires WellFormed(s) && id in s.operations.rows && s.operations.rows[id].bankAccountId in s.accounts.rows
    ensures var prior := s.operations.rows[id];
      var account := s.accounts.rows[prior.bankAccountId];
      var reversed := account.(balance := account.balance - Weight(prior, Signed));
      UpdateOperation(s, id, bankAccountId, categoryId, amount, opType, date, description) ==
        Retarget(WriteAccount(s, reversed), prior, reversed, bankAccountId, categoryId, amount, opType, date, description)
  {
  }

  /** The part of UpdateOperation after the reversal (lines 141-199), on the
      store s1 that already holds the reversed account. */
  function Retarget(s1: Store, prior: Operation, reversed: BankAccount, bankAccountId: int, categoryId: int,
                    amount: int, opType: OperationType, date: Date, description: string): (r: Step<Operation>)
    requires WellFormed(s1) && prior.id in s1.operations.rows
    requires reversed.id == prior.bankAccountId && reversed.id in s1.accounts.rows
    ensures WellFormed(r.store)
    ensures r.result.Err? ==> r.store == s1
    ensures bankAccountId !in s1.accounts.rows ==> r.result == Err(NotFound(BankAccountEntity))
    ensures bankAccountId in s1.accounts.rows && categoryId !in s1.categories.rows ==>
      r.result == Err(NotFound(CategoryEntity))
    ensures (bankAccountId in s1.accounts.rows && categoryId in s1.categories.rows
             && s1.categories.rows[categoryId].opType != opType) ==> r.result == Err(Invalid(TypeMismatch))
    ensures r.result.Ok? <==>
      bankAccountId in s1.accounts.rows && categoryId in s1.categories.rows
      && s1.categories.rows[categoryId].opType == opType
    ensures r.result.Ok? ==>
      r.result.value == prior.(bankAccountId := bankAccountId, categoryId := categoryId, amount := amount,
                               opType := opType, date := date, description := description)
  {
    var target := if prior.bankAccountId != bankAccountId then FindAccount(s1, bankAccountId) else Ok(reversed);
    match target
    case Err(e) => Step(s1, Err(e))
    case Ok(newAccount) =>
      match FindCategory(s1, categoryId)
      case Err(e) => Step(s1, Err(e))
      case Ok(category) =>
        if category.opType != opType then Step(s1, Err(Invalid(TypeMismatch)))
        else Rewrite(s1, prior, newAccount, bankAccountId, categoryId, amount, opType, date, description)
  }

  /** The writes of UpdateOperation once every check has passed (lines
      163-199): the operation takes the new fields and the new account gains
      the updated operation's signed amount. */
  function Rewrite(s1: Store, prior: Operation, newAccount: BankAccount, bankAccountId: int, categoryId: int,
                   amount: int, opType: OperationType, date: Date, description: string): (r: Step<Operation>)
    requires WellFormed(s1) && prior.id in s1.operations.rows
    requires newAccount.id in s1.accounts.rows
    ensures WellFormed(r.store)
    ensures r.result == Ok(prior.(bankAccountId := bankAccountId, categoryId := categoryId, amount := amount,
                                  opType := opType, date := date, description := description))
    ensures r.store == WriteAccount(WriteOperation(s1, r.result.value),
                                    newAccount.(balance := newAccount.balance + Weight(r.result.value, Signed)))
  {
    var updated := prior.(bankAccountId := bankAccountId, categoryId := categoryId, amount := amount,
                          opType := opType, date := date, description := description);
    var s2 := WriteOperation(s1, updated);
    var s3 := WriteAccount(s2, newAccount.(balance := newAccount.balance + Weight(updated, Signed)));
    Step(s3, Ok(updated))
  }

  /** DeleteOperation: the account's balance loses the operation's signed
      amount and the operation is removed. */
  function DeleteOperation(s: Store, id: int): (r: Effect)
    requires WellFormed(s)
    ensures WellFormed(r.store)
    ensures id !in s.operations.rows ==> r == Effect(s, Fail(NotFound(OperationEntity)))
    ensures id in s.operations.rows && s.operations.rows[id].bankAccountId !in s.accounts.rows ==>
      r == Effect(s, Fail(NotFound(BankAccountEntity)))
    ensures r.outcome.Fail? ==> r.store == s
    ensures id in s.operations.rows && s.operations.rows[id].bankAccountId in s.accounts.rows ==>
      r.outcome == Pass
    ensures r.outcome == Pass ==>
      var op := s.operations.rows[id];
      && id in s.operations.rows && op.bankAccountId in s.accounts.rows
      && r.store.operations == s.operations.(rows := s.operations.rows - {id})
      && r.store.accounts.rows == s.accounts.rows[op.bankAccountId :=
           s.accounts.rows[op.bankAccountId].(balance := s.accounts.rows[op.bankAccountId].balance - Weight(op, Signed))]
      && r.store.accounts.next == s.accounts.next
      && r.store.categories == s.categories
  {
    match FindOperation(s, id)
    case Err(e) => Effect(s, Fail(e))
    case Ok(operation) =>
      match FindAccount(s, operation.bankAccountId)
      case Err(e) => Effect(s, Fail(e))
      case Ok(account) =>
        var s1 := WriteAccount(s, account.(balance := account.balance - Weight(operation, Signed)));
        match RemoveOperation(s1, id)
        case Err(e) => Effect(s1, Fail(e))
        case Ok(s2) => Effect(s2, Pass)
  }

  // ---- BankAccountServiceImpl ----

  /** CreateBankAccount: the factory's account, saved under the factory's id,
      with a zero balance. */
  function CreateBankAccount(s: Store, nextId: int, name: string): (r: Created<BankAccount>)
    requires WellFormed(s)
    ensures WellFormed(r.store)
    ensures r.result.Err? ==> r.store == s && r.nextId == nextId
    ensures name == "" ==> r.result == Err(Invalid(AccountNameEmpty))
    ensures r.result.Ok? <==> name != "" && nextId > 0
    ensures r.result.Ok? ==>
      && r.result.value == BankAccount(nextId, name, 0)
      && r.nextId == nextId + 1
      && r.store.accounts.rows == s.accounts.rows[nextId := r.result.value]
      && r.store.operations == s.operations && r.store.categories == s.categories
  {
    match BuildBankAccount(nextId, name)
    case Err(e) => Created(s, nextId, Err(e))
    case Ok(account) =>
      var (s1, saved) := PutAccount(s, account);
      Created(s1, nextId + 1, Ok(saved))
  }

  /** UpdateBankAccount: the name is changed on the stored account before
      Validate runs, so a rejected name stays in the store. Only the name
      changes; the balance never does. */
  function UpdateBankAccount(s: Store, id: int, name: string): (r: Step<BankAccount>)
    requires WellFormed(s)
    ensures WellFormed(r.store)
    ensures id !in s.accounts.rows ==> r == Step(s, Err(NotFound(BankAccountEntity)))
    ensures id in s.accounts.rows ==>
      && r.store == WriteAccount(s, s.accounts.rows[id].(name := name))
      && r.result == (if name == "" then Err(Invalid(AccountNameEmpty))
                      else if id <= 0 then Err(Invalid(AccountIdNotPositive))
                      else Ok(s.accounts.rows[id].(name := name)))
  {
    match FindAccount(s, id)
    case Err(e) => Step(s, Err(e))
    case Ok(account) =>
      var renamed := account.(name := name);
      var s1 := WriteAccount(s, renamed);
      match ValidateBankAccount(renamed)
      case Fail(e) => Step(s1, Err(e))
      case Pass => Step(s1, Ok(renamed))
  }

  /** DeleteBankAccount: refused while any operation references the account. */
  function DeleteBankAccount(s: Store, id: int): (r: Effect)
    requires WellFormed(s)
    ensures WellFormed(r.store)
    ensures r.outcome.Fail? ==> r.store == s
    ensures r.outcome == Pass <==>
      id in s.accounts.rows && forall k :: k in s.operations.rows ==> s.operations.rows[k].bankAccountId != id
    ensures (exists k :: k in s.operations.rows && s.operations.rows[k].bankAccountId == id) ==>
      r.outcome == Fail(HasOperations(BankAccountEntity))
    ensures (id !in s.accounts.rows && forall k :: k in s.operations.rows ==> s.operations.rows[k].bankAccountId != id) ==>
      r.outcome == Fail(NotFound(BankAccountEntity))
    ensures r.outcome == Pass ==> r.store == s.(accounts := s.accounts.(rows := s.accounts.rows - {id}))
  {
    WhereEmpty(s.operations.rows, OfAccount(id));
    if Where(s.operations.rows, OfAccount(id)) != map[] then
      Effect(s, Fail(HasOperations(BankAccountEntity)))
    else
      match RemoveAccount(s, id)
      case Err(e) => Effect(s, Fail(e))
      case Ok(s1) => Effect(s1, Pass)
  }

  /** RecalculateBalance: the account's balance becomes the signed sum of its
      operations; nothing else changes. */
  function RecalculateBalance(s: Store, id: int): (r: Step<BankAccount>)
    requires WellFormed(s)
    ensures WellFormed(r.store)
    ensures id !in s.accounts.rows ==> r == Step(s, Err(NotFound(BankAccountEntity)))
    ensures id in s.accounts.rows ==>
      && r.result == Ok(s.accounts.rows[id].(balance := Balance(s, id)))
      && r.store == WriteAccount(s, r.result.value)
  {
    match FindAccount(s, id)
    case Err(e) => Step(s, Err(e))
    case Ok(account) =>
      var recalculated := account.(balance := Balance(s, id));
      Step(WriteAccount(s, recalculated), Ok(recalculated))
  }

  // ---- CategoryServiceImpl ----

  function CreateCategory(s: Store, nextId: int, name: string, opType: OperationType): (r: Created<Category>)
    requires WellFormed(s)
    ensures WellFormed(r.store)
    ensures r.result.Err? ==> r.store == s && r.nextId == nextId
    ensures r.result.Ok? <==> name != "" && nextId > 0 && IsKnownType(opType)
    ensures r.result.Ok? ==>
      && r.result.value == Category(nextId, opType, name)
      && r.nextId == nextId + 1
      && r.store.categories.rows == s.categories.rows[nextId := r.result.value]
      && r.store.operations == s.operations && r.store.accounts == s.accounts
  {
    match BuildCategory(nextId, name, opType)
    case Err(e) => Created(s, nextId, Err(e))
    case Ok(category) =>
      var (s1, saved) := PutCategory(s, category);
      Created(s1, nextId + 1, Ok(saved))
  }

  /** UpdateCategory: name and type are overwritten on the stored category
      before Validate runs, and the category's operations are not consulted. */
  function UpdateCategory(s: Store, id: int, name: string, opType: OperationType): (r: Step<Category>)
    requires WellFormed(s)
    ensures WellFormed(r.store)
    ensures id !in s.categories.rows ==> r == Step(s, Err(NotFound(CategoryEntity)))
    ensures id in s.categories.rows ==>
      && r.store == WriteCategory(s, s.categories.rows[id].(name := name, opType := opType))
      && r.result == (if name == "" then Err(Invalid(CategoryNameEmpty))
                      else if id <= 0 then Err(Invalid(CategoryIdNotPositive))
                      else if !IsKnownType(opType) then Err(Invalid(CategoryTypeUnknown))
                      else Ok(s.categories.rows[id].(name := name, opType := opType)))
  {
    match FindCategory(s, id)
    case Err(e) => Step(s, Err(e))
    case Ok(category) =>
      var changed := category.(name := name, opType := opType);
      var s1 := WriteCategory(s, changed);
      match ValidateCategory(changed)
      case Fail(e) => Step(s1, Err(e))
      case Pass => Step(s1, Ok(changed))
  }

  /** DeleteCategory: refused while any operation references the category. */
  function DeleteCategory(s: Store, id: int): (r: Effect)
    requires WellFormed(s)
    ensures WellFormed(r.store)
    ensures r.outcome.Fail? ==> r.store == s
    ensures r.outcome == Pass <==>
      id in s.categories.rows && forall k :: k in s.operations.rows ==> s.operations.rows[k].categoryId != id
    ensures (exists k :: k in s.operations.rows && s.operations.rows[k].categoryId == id) ==>
      r.outcome == Fail(HasOperations(CategoryEntity))
    ensures (id !in s.categories.rows && forall k :: k in s.operations.rows ==> s.operations.rows[k].categoryId != id) ==>
      r.outcome == Fail(NotFound(CategoryEntity))
    ensures r.outcome == Pass ==> r.store == s.(categories := s.categories.(rows := s.categories.rows - {id}))
  {
    WhereEmpty(s.operations.rows, OfCategory(id));
    if Where(s.operations.rows, OfCategory(id)) != map[] then
      Effect(s, Fail(HasOperations(CategoryEntity)))
    else
      match RemoveCategory(s, id)
      case Err(e) => Effect(s, Fail(e))
      case Ok(s1) => Effect(s1, Pass)
  }
}
