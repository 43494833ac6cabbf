/**
  What the ledger services keep true of the store, and where they do not.

  `Consistent` (module Ledger) is: the store is well formed, every operation's
  account and category are stored, every operation has its category's type,
  and every account's balance is the signed sum of its operations.
*/
module Consistency {
  import opened Models
  import opened Listings
  import opened Totals
  import opened Persistence
  import opened Ledger

  /** A balance over no operations is zero. */
  lemma NoOperationsNoBalance(s: Store, a: int)
    requires forall k :: k in s.operations.rows ==> s.operations.rows[k].bankAccountId != a
    ensures Balance(s, a) == 0
  {
    WhereEmpty(s.operations.rows, OfAccount(a));
  }

  /** A successful CreateOperation keeps the ledger consistent, provided the
      factory's counter is not behind the repository's (as after start-up, and
      after every create, which the second conclusion says). */
  lemma CreateOperationKeepsConsistent(s: Store, nextId: int, bankAccountId: int, categoryId: int,
                                       amount: int, opType: OperationType, date: Date, description: string)
    requires Consistent(s) && s.operations.next <= nextId
    ensures var r := CreateOperation(s, nextId, bankAccountId, categoryId, amount, opType, date, description);
      Consistent(r.store) && r.store.operations.next <= r.nextId
  {
    var r := CreateOperation(s, nextId, bankAccountId, categoryId, amount, opType, date, description);
    if r.result.Ok? {
      var o := r.result.value;
      assert nextId !in s.operations.rows;
      forall a | a in r.store.accounts.rows
        ensures r.store.accounts.rows[a].balance == Balance(r.store, a)
      {
        TotalAfterWrite(s.operations.rows, nextId, o, OfAccount(a), Signed);
      }
    }
  }

  /** A successful UpdateOperation keeps the ledger consistent: the old effect
      leaves the old account and the new effect reaches the new one, which may
      be the same account. */
  lemma UpdateOperationKeepsConsistent(s: Store, id: int, bankAccountId: int, categoryId: int,
                                       amount: int, opType: OperationType, date: Date, description: string)
    requires Consistent(s)
    ensures var r := UpdateOperation(s, id, bankAccountId, categoryId, amount, opType, date, description);
      r.result.Ok? ==> Consistent(r.store)
  {
    var r := UpdateOperation(s, id, bankAccountId, categoryId, amount, opType, date, description);
    if r.result.Ok? {
      UpdatedBalancesMatch(s, r.store, id, r.result.value);
      UpdatedReferencesHold(s, r.store, id, r.result.value);
    }
  }

  /** The reference part of UpdateOperationKeepsConsistent: the rewritten
      operation names a stored account and a stored category of its type. */
  lemma UpdatedReferencesHold(s: Store, s1: Store, id: int, o: Operation)
    requires AccountsExist(s) && CategoriesExist(s) && KindsMatch(s)
    requires s1.operations.rows == s.operations.rows[id := o]
    requires s1.accounts.rows.Keys == s.accounts.rows.Keys && s1.categories == s.categories
    requires o.bankAccountId in s.accounts.rows && o.categoryId in s.categories.rows
    requires s.categories.rows[o.categoryId].opType == o.opType
    ensures AccountsExist(s1) && CategoriesExist(s1) && KindsMatch(s1)
  {
  }

  /** The balance part of UpdateOperationKeepsConsistent, stated on the
      outcome the update's contract describes. */
  lemma UpdatedBalancesMatch(s: Store, s1: Store, id: int, o: Operation)
    requires WellFormed(s) && BalancesMatch(s) && id in s.operations.rows
    requires s1.operations.rows == s.operations.rows[id := o]
    requires s1.accounts.rows.Keys == s.accounts.rows.Keys
    requires forall a :: a in s.accounts.rows ==>
      s1.accounts.rows[a].balance == s.accounts.rows[a].balance
        - (if a == s.operations.rows[id].bankAccountId then Weight(s.operations.rows[id], Signed) else 0)
        + (if a == o.bankAccountId then Weight(o, Signed) else 0)
    ensures BalancesMatch(s1)
  {
    forall a | a in s1.accounts.rows
      ensures s1.accounts.rows[a].balance == Balance(s1, a)
    {
      TotalAfterWrite(s.operations.rows, id, o, OfAccount(a), Signed);
    }
  }

  /** UpdateOperation is not atomic: when it fails after finding the operation
      (an unknown new account or category, or a type mismatch), the old
      account keeps the reversal, so its balance is off by the operation's
      signed amount, and the ledger is no longer consistent whenever that
      amount is not zero. */
  lemma FailedUpdateKeepsReversal(s: Store, id: int, bankAccountId: int, categoryId: int,
                                  amount: int, opType: OperationType, date: Date, description: string)
    requires Consistent(s) && id in s.operations.rows
    ensures var r := UpdateOperation(s, id, bankAccountId, categoryId, amount, opType, date, description);
      var prior := s.operations.rows[id];
      r.result.Err? ==>
        && r.store.operations == s.operations
        && r.store.accounts.rows[prior.bankAccountId].balance
             == Balance(r.store, prior.bankAccountId) - Weight(prior, Signed)
        && (prior.amount != 0 ==> !BalancesMatch(r.store))
  {
  }

  /** The type check of UpdateOperation fires after the reversal: with a
      category of another type, the call fails and the reversal stays. */
  lemma MismatchedUpdateBreaksBalances(s: Store, id: int, bankAccountId: int, categoryId: int,
                                       amount: int, opType: OperationType, date: Date, description: string)
    requires Consistent(s) && id in s.operations.rows && s.operations.rows[id].amount != 0
    requires bankAccountId in s.accounts.rows && categoryId in s.categories.rows
    requires s.categories.rows[categoryId].opType != opType
    ensures var r := UpdateOperation(s, id, bankAccountId, categoryId, amount, opType, date, description);
      r.result == Err(Invalid(TypeMismatch)) && !BalancesMatch(r.store)
  {
    FailedUpdateKeepsReversal(s, id, bankAccountId, categoryId, amount, opType, date, description);
  }

  lemma DeleteOperationKeepsConsistent(s: Store, id: int)
    requires Consistent(s)
    ensures Consistent(DeleteOperation(s, id).store)
  {
    var r := DeleteOperation(s, id);
    if r.outcome == Pass {
      forall a | a in r.store.accounts.rows
        ensures r.store.accounts.rows[a].balance == Balance(r.store, a)
      {
        TotalAfterDelete(s.operations.rows, id, OfAccount(a), Signed);
      }
    }
  }

  /** A new account has no operations yet, so its zero balance is right,
      provided the factory's counter is not behind the repository's. */
  lemma CreateBankAccountKeepsConsistent(s: Store, nextId: int, name: string)
    requires Consistent(s) && s.accounts.next <= nextId
    ensures var r := CreateBankAccount(s, nextId, name);
      Consistent(r.store) && r.store.accounts.next <= r.nextId
  {
    var r := CreateBankAccount(s, nextId, name);
    if r.result.Ok? {
      NoOperationsNoBalance(s, nextId);
    }
  }

  /** Renaming never touches a balance, even when the new name is rejected. */
  lemma UpdateBankAccountKeepsConsistent(s: Store, id: int, name: string)
    requires Consistent(s)
    ensures Consistent(UpdateBankAccount(s, id, name).store)
  {
  }

  /** A rejected name is still stored: Validate runs after the change. */
  lemma RejectedNamePersists(s: Store, id: int)
    requires WellFormed(s) && id in s.accounts.rows
    ensures var r := UpdateBankAccount(s, id, "");
      r.result == Err(Invalid(AccountNameEmpty)) && r.store.accounts.rows[id].name == ""
  {
  }

  lemma DeleteBankAccountKeepsConsistent(s: Store, id: int)
    requires Consistent(s)
    ensures Consistent(DeleteBankAccount(s, id).store)
  {
  }

  /** RecalculateBalance makes the account's balance the signed sum of its
      operations, whatever it was before. */
  lemma RecalculatedBalanceMatches(s: Store, id: int)
    requires WellFormed(s) && id in s.accounts.rows
    ensures var r := RecalculateBalance(s, id);
      r.store.accounts.rows[id].balance == Balance(r.store, id)
      && forall a :: a in s.accounts.rows && a != id ==> r.store.accounts.rows[a] == s.accounts.rows[a]
  {
  }

  /** On a consistent ledger RecalculateBalance changes nothing. */
  lemma RecalculateOnConsistentIsNoOp(s: Store, id: int)
    requires Consistent(s)
    ensures RecalculateBalance(s, id).store == s
  {
    if id in s.accounts.rows {
      assert s.accounts.rows[id := s.accounts.rows[id]] == s.accounts.rows;
    }
  }

  /** A second RecalculateBalance with nothing in between gives the same
      balance and the same store. */
  lemma RecalculateIdempotent(s: Store, id: int)
    requires WellFormed(s)
    ensures var r := RecalculateBalance(s, id);
      RecalculateBalance(r.store, id) == r
  {
    var r := RecalculateBalance(s, id);
    if id in s.accounts.rows {
      var rows := r.store.accounts.rows;
      assert rows[id := rows[id]] == rows;
    }
  }

  /** After a failed UpdateOperation, recalculating the old account's balance
      brings the ledger back to consistency. */
  lemma RecalculateRepairsFailedUpdate(s: Store, id: int, bankAccountId: int, categoryId: int,
                                       amount: int, opType: OperationType, date: Date, description: string)
    requires Consistent(s) && id in s.operations.rows
    ensures var r := UpdateOperation(s, id, bankAccountId, categoryId, amount, opType, date, description);
      r.result.Err? ==> Consistent(RecalculateBalance(r.store, s.operations.rows[id].bankAccountId).store)
  {
    var r := UpdateOperation(s, id, bankAccountId, categoryId, amount, opType, date, description);
    if r.result.Err? {
      var a := s.operations.rows[id].bankAccountId;
      assert r.store.accounts.rows[a := s.accounts.rows[a]] == s.accounts.rows;
    }
  }

  lemma CreateCategoryKeepsConsistent(s: Store, nextId: int, name: string, opType: OperationType)
    requires Consistent(s) && s.categories.next <= nextId
    ensures var r := CreateCategory(s, nextId, name, opType);
      Consistent(r.store) && r.store.categories.next <= r.nextId
  {
  }

  /** UpdateCategory keeps everything but the agreement of types. */
  lemma UpdateCategoryKeepsBalances(s: Store, id: int, name: string, opType: OperationType)
    requires Consistent(s)
    ensures var r := UpdateCategory(s, id, name, opType);
      WellFormed(r.store) && AccountsExist(r.store) && CategoriesExist(r.store) && BalancesMatch(r.store)
  {
  }

  /** UpdateCategory does not look at the category's operations: retyping a
      category that an operation uses leaves that operation with the other
      type, and this happens even when Validate then rejects the new type. */
  lemma RetypingBreaksKinds(s: Store, k: int, name: string, opType: OperationType)
    requires Consistent(s) && k in s.operations.rows && s.operations.rows[k].opType != opType
    ensures var r := UpdateCategory(s, s.operations.rows[k].categoryId, name, opType);
      !KindsMatch(r.store)
  {
    var c := s.operations.rows[k].categoryId;
    var r := UpdateCategory(s, c, name, opType);
    assert r.store.categories.rows[c].opType == opType;
  }

  lemma DeleteCategoryKeepsConsistent(s: Store, id: int)
    requires Consistent(s)
    ensures Consistent(DeleteCategory(s, id).store)
  {
  }

  /** When the factory's counter is behind the repository's (entities imported
      with explicit ids, as SetNextID is never called), CreateOperation hands
      out a stored id and the new operation silently replaces the stored one:
      no entry is added, and the replaced operation's amount stays in its
      account's balance, so balances no longer match. */
  lemma FactoryBehindOverwrites(s: Store, nextId: int, bankAccountId: int, categoryId: int,
                                amount: int, opType: OperationType, date: Date, description: string)
    requires WellFormed(s) && nextId in s.operations.rows
    ensures var r := CreateOperation(s, nextId, bankAccountId, categoryId, amount, opType, date, description);
      r.result.Ok? ==>
        && r.store.operations.rows.Keys == s.operations.rows.Keys
        && r.store.operations.rows[nextId] == r.result.value
    ensures var r := CreateOperation(s, nextId, bankAccountId, categoryId, amount, opType, date, description);
      (Consistent(s) && r.result.Ok? && s.operations.rows[nextId].amount != 0) ==> !BalancesMatch(r.store)
  {
    var r := CreateOperation(s, nextId, bankAccountId, categoryId, amount, opType, date, description);
    if Consistent(s) && r.result.Ok? && s.operations.rows[nextId].amount != 0 {
      var replaced := s.operations.rows[nextId];
      var a := replaced.bankAccountId;
      TotalAfterWrite(s.operations.rows, nextId, r.result.value, OfAccount(a), Signed);
      assert r.store.accounts.rows[a].balance != Balance(r.store, a);
    }
  }
}
