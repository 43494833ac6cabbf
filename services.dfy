/**
  The ledger services as objects over the repository and their factories
  (application/services). Each method performs the Go method's steps in
  order, and its postcondition says that the repository, the factory counter
  and the result end up exactly as the matching function of module Ledger says,
  so everything proved there about consistency holds of these methods.

  Where Go changes a fetched entity in place, the method writes the changed
  entity straight into the repository's map at that point, since in Go the
  fetched pointer is the stored one. The repository Update calls that follow
  such a change cannot fail and store the same value again.
*/
module Services {
  import opened Models
  import opened Listings
  import opened Totals
  import opened Factory
  import opened Persistence
  import Ledger

  /** The loop of RecalculateBalance: start from zero and add each listed
      operation's signed amount. */
  method SumSigned(ops: seq<Operation>) returns (balance: int)
    requires DistinctKeys(ops, OperationKey)
    ensures balance == Total(Index(ops, OperationKey), Signed)
  {
    balance := 0;
    for i := 0 to |ops|
      invariant balance == Total(Index(ops[..i], OperationKey), Signed)
    {
      NextIsNew(ops, i, OperationKey);
      IndexPrefix(ops, i, OperationKey);
      TotalInsert(Index(ops[..i], OperationKey), ops[i].id, ops[i], Signed);
      if ops[i].opType == Income {
        balance := balance + ops[i].amount;
      } else {
        balance := balance - ops[i].amount;
      }
    }
    assert ops[..|ops|] == ops;
  }

  class OperationService {
    const repo: MemoryRepository
    const factory: OperationFactory

    constructor (repo: MemoryRepository, factory: OperationFactory)
      ensures this.repo == repo && this.factory == factory
    {
      this.repo := repo;
      this.factory := factory;
    }

    method CreateOperation(bankAccountId: int, categoryId: int, amount: int,
                           opType: OperationType, date: Date, description: string)
      returns (r: Result<Operation>)
      requires repo.Valid() && factory.Valid()
      modifies repo, factory
      ensures repo.Valid() && factory.Valid()
      ensures var c := Ledger.CreateOperation(old(repo.State()), old(factory.nextId), bankAccountId,
                                              categoryId, amount, opType, date, description);
        repo.State() == c.store && factory.nextId == c.nextId && r == c.result
    {
      var account := repo.GetBankAccountById(bankAccountId);
      if account.Err? {
        return Err(account.error);
      }
      var category := repo.GetCategoryById(categoryId);
      if category.Err? {
        return Err(category.error);
      }
      if category.value.opType != opType {
        return Err(Invalid(TypeMismatch));
      }
      var operation := factory.CreateOperation(bankAccountId, categoryId, amount, opType, date, description);
      if operation.Err? {
        return operation;
      }
      var saved := repo.SaveOperation(operation.value);
      var changed := account.value.(balance := account.value.balance + Weight(operation.value, Signed));
      var _ := repo.UpdateBankAccount(changed);
      r := Ok(saved);
    }

    method UpdateOperation(id: int, bankAccountId: int, categoryId: int, amount: int,
                           opType: OperationType, date: Date, description: string)
      returns (r: Result<Operation>)
      requires repo.Valid()
      modifies repo
      ensures repo.Valid()
      ensures var c := Ledger.UpdateOperation(old(repo.State()), id, bankAccountId, categoryId,
                                              amount, opType, date, description);
        repo.State() == c.store && r == c.result
    {
      ghost var s := repo.State();
      var found := repo.GetOperationById(id);
      if found.Err? {
        return Err(found.error);
      }
      var prior := found.value;
      var oldAccount := repo.GetBankAccountById(prior.bankAccountId);
      if oldAccount.Err? {
        return Err(oldAccount.error);
      }
      // The reversal changes the stored account at once.
      var reversed := oldAccount.value.(balance := oldAccount.value.balance - Weight(prior, Signed));
      repo.bankAccounts := repo.bankAccounts[reversed.id := reversed];
      assert prior == s.operations.rows[id];
      assert reversed == s.accounts.rows[prior.bankAccountId].(balance :=
        s.accounts.rows[prior.bankAccountId].balance - Weight(prior, Signed));
      assert repo.State() == Ledger.WriteAccount(s, reversed);
      Ledger.UpdateIsReversalThenRetarget(s, id, bankAccountId, categoryId, amount, opType, date, description);
      ghost var c := Ledger.Retarget(repo.State(), prior, reversed, bankAccountId, categoryId, amount,
                                     opType, date, description);
      r := Retarget(prior, reversed, bankAccountId, categoryId, amount, opType, date, description);
      assert repo.State() == c.store && r == c.result;
    }

    /** The checks and writes of UpdateOperation that follow the reversal. */
    method Retarget(prior: Operation, reversed: BankAccount, bankAccountId: int, categoryId: int, amount: int,
                    opType: OperationType, date: Date, description: string)
      returns (r: Result<Operation>)
      requires repo.Valid() && prior.id in repo.operations
      requires reversed.id == prior.bankAccountId && reversed.id in repo.bankAccounts
      modifies repo
      ensures repo.Valid()
      ensures var c := Ledger.Retarget(old(repo.State()), prior, reversed, bankAccountId, categoryId,
                                       amount, opType, date, description);
        repo.State() == c.store && r == c.result
    {
      var newAccount := reversed;
      if prior.bankAccountId != bankAccountId {
        var target := repo.GetBankAccountById(bankAccountId);
        if target.Err? {
          return Err(target.error);
        }
        newAccount := target.value;
      }
      var category := repo.GetCategoryById(categoryId);
      if category.Err? {
        return Err(category.error);
      }
      if category.value.opType != opType {
        return Err(Invalid(TypeMismatch));
      }
      r := Rewrite(prior, newAccount, bankAccountId, categoryId, amount, opType, date, description);
    }

    /** The writes of UpdateOperation once every check has passed. */
    method Rewrite(prior: Operation, newAccount: BankAccount, bankAccountId: int, categoryId: int, amount: int,
                   opType: OperationType, date: Date, description: string)
      returns (r: Result<Operation>)
      requires repo.Valid() && prior.id in repo.operations && newAccount.id in repo.bankAccounts
      modifies repo
      ensures repo.Valid()
      ensures var c := Ledger.Rewrite(old(repo.State()), prior, newAccount, bankAccountId, categoryId,
                                      amount, opType, date, description);
        repo.State() == c.store && r == c.result
    {
      var updated := prior.(bankAccountId := bankAccountId, categoryId := categoryId, amount := amount,
                            opType := opType, date := date, description := description);
      repo.operations := repo.operations[updated.id := updated];
      var credited := newAccount.(balance := newAccount.balance + Weight(updated, Signed));
      repo.bankAccounts := repo.bankAccounts[credited.id := credited];
      r := Ok(updated);
    }

    method DeleteOperation(id: int) returns (r: Outcome)
      requires repo.Valid()
      modifies repo
      ensures repo.Valid()
      ensures var e := Ledger.DeleteOperation(old(repo.State()), id);
        repo.State() == e.store && r == e.outcome
    {
      var found := repo.GetOperationById(id);
      if found.Err? {
        return Fail(found.error);
      }
      var operation := found.value;
      var account := repo.GetBankAccountById(operation.bankAccountId);
      if account.Err? {
        return Fail(account.error);
      }
      var changed := account.value.(balance := account.value.balance - Weight(operation, Signed));
      repo.bankAccounts := repo.bankAccounts[changed.id := changed];
      r := repo.DeleteOperation(id);
    }
  }

  class BankAccountService {
    const repo: MemoryRepository
    const factory: BankAccountFactory

    constructor (repo: MemoryRepository, factory: BankAccountFactory)
      ensures this.repo == repo && this.factory == factory
    {
      this.repo := repo;
      this.factory := factory;
    }

    method CreateBankAccount(name: string) returns (r: Result<BankAccount>)
      requires repo.Valid() && factory.Valid()
      modifies repo, factory
      ensures repo.Valid() && factory.Valid()
      ensures var c := Ledger.CreateBankAccount(old(repo.State()), old(factory.nextId), name);
        repo.State() == c.store && factory.nextId == c.nextId && r == c.result
    {
      var account := factory.CreateBankAccount(name);
      if account.Err? {
        return account;
      }
      var saved := repo.SaveBankAccount(account.value);
      r := Ok(saved);
    }

    method UpdateBankAccount(id: int, name: string) returns (r: Result<BankAccount>)
      requires repo.Valid()
      modifies repo
      ensures repo.Valid()
      ensures var c := Ledger.UpdateBankAccount(old(repo.State()), id, name);
        repo.State() == c.store && r == c.result
    {
      var account := repo.GetBankAccountById(id);
      if account.Err? {
        return Err(account.error);
      }
      var renamed := account.value.(name := name);
      repo.bankAccounts := repo.bankAccounts[renamed.id := renamed];
      var check := ValidateBankAccount(renamed);
      if check.Fail? {
        return Err(check.error);
      }
      r := Ok(renamed);
    }

    method DeleteBankAccount(id: int) returns (r: Outcome)
      requires repo.Valid()
      modifies repo
      ensures repo.Valid()
      ensures var e := Ledger.DeleteBankAccount(old(repo.State()), id);
        repo.State() == e.store && r == e.outcome
    {
      var operations := repo.GetOperationsByBankAccountId(id);
      ListsLength(operations, Where(repo.operations, OfAccount(id)), OperationKey);
      if |operations| > 0 {
        return Fail(HasOperations(BankAccountEntity));
      }
      r := repo.DeleteBankAccount(id);
    }

    method RecalculateBalance(id: int) returns (r: Result<BankAccount>)
      requires repo.Valid()
      modifies repo
      ensures repo.Valid()
      ensures var c := Ledger.RecalculateBalance(old(repo.State()), id);
        repo.State() == c.store && r == c.result
    {
      var account := repo.GetBankAccountById(id);
      if account.Err? {
        return Err(account.error);
      }
      var operations := repo.GetOperationsByBankAccountId(id);
      var balance := SumSigned(operations);
      var recalculated := account.value.(balance := balance);
      repo.bankAccounts := repo.bankAccounts[recalculated.id := recalculated];
      r := Ok(recalculated);
    }
  }

  class CategoryService {
    const repo: MemoryRepository
    const factory: CategoryFactory

    constructor (repo: MemoryRepository, factory: CategoryFactory)
      ensures this.repo == repo && this.factory == factory
    {
      this.repo := repo;
      this.factory := factory;
    }

    method CreateCategory(name: string, opType: OperationType) returns (r: Result<Category>)
      requires repo.Valid() && factory.Valid()
      modifies repo, factory
      ensures repo.Valid() && factory.Valid()
      ensures var c := Ledger.CreateCategory(old(repo.State()), old(factory.nextId), name, opType);
        repo.State() == c.store && factory.nextId == c.nextId && r == c.result
    {
      var category := factory.CreateCategory(name, opType);
      if category.Err? {
        return category;
      }
      var saved := repo.SaveCategory(category.value);
      r := Ok(saved);
    }

    method GetCategoriesByType(opType: OperationType) returns (r: seq<Category>)
      requires repo.Valid()
      ensures Lists(r, OfKind(repo.categories, opType), CategoryKey)
    {
      r := repo.GetCategoriesByType(opType);
    }

    method UpdateCategory(id: int, name: string, opType: OperationType) returns (r: Result<Category>)
      requires repo.Valid()
      modifies repo
      ensures repo.Valid()
      ensures var c := Ledger.UpdateCategory(old(repo.State()), id, name, opType);
        repo.State() == c.store && r == c.result
    {
      var category := repo.GetCategoryById(id);
      if category.Err? {
        return Err(category.error);
      }
      var changed := category.value.(name := name, opType := opType);
      repo.categories := repo.categories[changed.id := changed];
      var check := ValidateCategory(changed);
      if check.Fail? {
        return Err(check.error);
      }
      r := Ok(changed);
    }

    method DeleteCategory(id: int) returns (r: Outcome)
      requires repo.Valid()
      modifies repo
      ensures repo.Valid()
      ensures var e := Ledger.DeleteCategory(old(repo.State()), id);
        repo.State() == e.store && r == e.outcome
    {
      var operations := repo.GetOperationsByCategoryId(id);
      ListsLength(operations, Where(repo.operations, OfCategory(id)), OperationKey);
      if |operations| > 0 {
        return Fail(HasOperations(CategoryEntity));
      }
      r := repo.DeleteCategory(id);
    }
  }
}
