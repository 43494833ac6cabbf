/**
  The in-memory repository (infrastructure/persistence/memory_repository.go).

  The repository keeps, per kind, a map from id to entity and a counter of the
  next id. In Go the maps hold pointers and GetByID returns the stored pointer,
  so a service that changes a fetched entity changes the stored one at once.
  Here entities are values and every such change is an explicit write into the
  map; because every entry is stored under its own id (`WellFormed`), writing
  an entity back under its id is exactly what the shared pointer achieves.

  `Store` and the functions over it say what each repository call does; the
  class `MemoryRepository` is the repository itself, with the same six fields
  as the Go struct, and each of its methods is proved to do what the matching
  function says. The RWMutex is not modelled.
*/
module Persistence {
  import opened Models
  import opened Listings
  import opened Totals

  function AccountKey(a: BankAccount): int { a.id }
  function CategoryKey(c: Category): int { c.id }
  function OperationKey(o: Operation): int { o.id }

  /** One kind's map together with the id its counter will hand out next. */
  datatype Table<T> = Table(rows: map<int, T>, next: int)

  datatype Store = Store(
    accounts: Table<BankAccount>,
    categories: Table<Category>,
    operations: Table<Operation>)

  /** NewMemoryRepository: empty maps, every counter at 1. */
  const EmptyStore := Store(Table(map[], 1), Table(map[], 1), Table(map[], 1))

  /** The counter is positive and every key is below it, so the next id is free. */
  predicate Bounded<T>(t: Table<T>)
  {
    t.next >= 1 && forall k :: k in t.rows ==> k < t.next
  }

  predicate WellFormed(s: Store)
  {
    && Bounded(s.accounts) && KeyedBy(s.accounts.rows, AccountKey)
    && Bounded(s.categories) && KeyedBy(s.categories.rows, CategoryKey)
    && Bounded(s.operations) && KeyedBy(s.operations.rows, OperationKey)
  }

  /** The id Save gives an entity that carries `id`: the counter when id is 0,
      else id itself. */
  function SaveKey(id: int, next: int): (k: int)
    ensures id == 0 ==> k == next
    ensures id != 0 ==> k == id
  {
    if id == 0 then next else id
  }

  /** The table after Save of a row that carries `id` and has already been
      given SaveKey(id, t.next): a zero id takes the counter and advances it,
      an explicit id at or past the counter moves the counter beyond it, any
      other id leaves the counter alone. The row replaces whatever was stored
      under its key. */
  function Put<T>(t: Table<T>, id: int, row: T): (r: Table<T>)
    ensures r.rows == t.rows[SaveKey(id, t.next) := row]
    ensures r.next >= t.next && SaveKey(id, t.next) < r.next
    ensures id == 0 ==> r.next == t.next + 1
    ensures id != 0 && id >= t.next ==> r.next == id + 1
    ensures id != 0 && id < t.next ==> r.next == t.next
    ensures Bounded(t) ==> Bounded(r)
    ensures Bounded(t) && id == 0 ==> SaveKey(id, t.next) !in t.rows
  {
    var next := if id == 0 then t.next + 1 else if id >= t.next then id + 1 else t.next;
    Table(t.rows[SaveKey(id, t.next) := row], next)
  }

  /** Update: the row replaces the entry under `key`, which must exist. */
  function Replace<T>(t: Table<T>, key: int, row: T, kind: Entity): (r: Result<Table<T>>)
    ensures r.Ok? <==> key in t.rows
    ensures r.Err? ==> r.error == NotFound(kind)
    ensures r.Ok? ==> r.value.next == t.next && r.value.rows == t.rows[key := row]
    ensures r.Ok? && Bounded(t) ==> Bounded(r.value)
  {
    if key !in t.rows then Err(NotFound(kind))
    else Ok(Table(t.rows[key := row], t.next))
  }

  /** Delete: the entry under `key`, which must exist, goes; the counter stays,
      so the id is never handed out again. */
  function Remove<T>(t: Table<T>, key: int, kind: Entity): (r: Result<Table<T>>)
    ensures r.Ok? <==> key in t.rows
    ensures r.Err? ==> r.error == NotFound(kind)
    ensures r.Ok? ==> r.value.next == t.next && r.value.rows == t.rows - {key}
    ensures r.Ok? && Bounded(t) ==> Bounded(r.value) && key < r.value.next
  {
    if key !in t.rows then Err(NotFound(kind))
    else Ok(Table(t.rows - {key}, t.next))
  }

  /** GetByID for any kind: the stored entry, or "not found". */
  function Find<T>(t: Table<T>, id: int, kind: Entity): (r: Result<T>)
    ensures r.Ok? <==> id in t.rows
    ensures r.Ok? ==> r.value == t.rows[id]
    ensures r.Err? ==> r.error == NotFound(kind)
  {
    if id in t.rows then Ok(t.rows[id]) else Err(NotFound(kind))
  }

  // ---- bank accounts ----

  function FindAccount(s: Store, id: int): (r: Result<BankAccount>)
    requires WellFormed(s)
    ensures r.Ok? ==> r.value.id == id
  {
    Find(s.accounts, id, BankAccountEntity)
  }

  /** SaveBankAccount: returns the store and the account as stored (Go sets the
      assigned id on the caller's object). */
  function PutAccount(s: Store, a: BankAccount): (r: (Store, BankAccount))
    ensures r.1 == a.(id := SaveKey(a.id, s.accounts.next))
    ensures r.0 == s.(accounts := Put(s.accounts, a.id, r.1))
    ensures WellFormed(s) ==> WellFormed(r.0)
  {
    var stored := a.(id := SaveKey(a.id, s.accounts.next));
    (s.(accounts := Put(s.accounts, a.id, stored)), stored)
  }

  function ReplaceAccount(s: Store, a: BankAccount): (r: Result<Store>)
    ensures r.Ok? <==> a.id in s.accounts.rows
    ensures r.Err? ==> r.error == NotFound(BankAccountEntity)
    ensures r.Ok? ==> r.value == s.(accounts := Table(s.accounts.rows[a.id := a], s.accounts.next))
    ensures r.Ok? && WellFormed(s) ==> WellFormed(r.value)
  {
    match Replace(s.accounts, a.id, a, BankAccountEntity)
    case Ok(t) => Ok(s.(accounts := t))
    case Err(e) => Err(e)
  }

  function RemoveAccount(s: Store, id: int): (r: Result<Store>)
    ensures r.Ok? <==> id in s.accounts.rows
    ensures r.Err? ==> r.error == NotFound(BankAccountEntity)
    ensures r.Ok? ==> r.value == s.(accounts := Table(s.accounts.rows - {id}, s.accounts.next))
    ensures r.Ok? && WellFormed(s) ==> WellFormed(r.value)
  {
    match Remove(s.accounts, id, BankAccountEntity)
    case Ok(t) => Ok(s.(accounts := t))
    case Err(e) => Err(e)
  }

  // ---- categories ----

  function FindCategory(s: Store, id: int): (r: Result<Category>)
    requires WellFormed(s)
    ensures r.Ok? ==> r.value.id == id
  {
    Find(s.categories, id, CategoryEntity)
  }

  function PutCategory(s: Store, c: Category): (r: (Store, Category))
    ensures r.1 == c.(id := SaveKey(c.id, s.categories.next))
    ensures r.0 == s.(categories := Put(s.categories, c.id, r.1))
    ensures WellFormed(s) ==> WellFormed(r.0)
  {
    var stored := c.(id := SaveKey(c.id, s.categories.next));
    (s.(categories := Put(s.categories, c.id, stored)), stored)
  }

  function ReplaceCategory(s: Store, c: Category): (r: Result<Store>)
    ensures r.Ok? <==> c.id in s.categories.rows
    ensures r.Err? ==> r.error == NotFound(CategoryEntity)
    ensures r.Ok? ==> r.value == s.(categories := Table(s.categories.rows[c.id := c], s.categories.next))
    ensures r.Ok? && WellFormed(s) ==> WellFormed(r.value)
  {
    match Replace(s.categories, c.id, c, CategoryEntity)
    case Ok(t) => Ok(s.(categories := t))
    case Err(e) => Err(e)
  }

  function RemoveCategory(s: Store, id: int): (r: Result<Store>)
    ensures r.Ok? <==> id in s.categories.rows
    ensures r.Err? ==> r.error == NotFound(CategoryEntity)
    ensures r.Ok? ==> r.value == s.(categories := Table(s.categories.rows - {id}, s.categories.next))
    ensures r.Ok? && WellFormed(s) ==> WellFormed(r.value)
  {
    match Remove(s.categories, id, CategoryEntity)
    case Ok(t) => Ok(s.(categories := t))
    case Err(e) => Err(e)
  }

  /** GetCategoriesByType's selection: the categories of exactly that type. */
  function OfKind(m: map<int, Category>, t: OperationType): (r: map<int, Category>)
    ensures forall k :: k in r <==> k in m && m[k].opType == t
    ensures forall k :: k in r ==> r[k] == m[k]
  {
    Filter(m, (c: Category) => c.opType == t)
  }

  // ---- operations ----

  function FindOperation(s: Store, id: int): (r: Result<Operation>)
    requires WellFormed(s)
    ensures r.Ok? ==> r.value.id == id
  {
    Find(s.operations, id, OperationEntity)
  }

  function PutOperation(s: Store, o: Operation): (r: (Store, Operation))
    ensures r.1 == o.(id := SaveKey(o.id, s.operations.next))
    ensures r.0 == s.(operations := Put(s.operations, o.id, r.1))
    ensures WellFormed(s) ==> WellFormed(r.0)
  {
    var stored := o.(id := SaveKey(o.id, s.operations.next));
    (s.(operations := Put(s.operations, o.id, stored)), stored)
  }

  function ReplaceOperation(s: Store, o: Operation): (r: Result<Store>)
    ensures r.Ok? <==> o.id in s.operations.rows
    ensures r.Err? ==> r.error == NotFound(OperationEntity)
    ensures r.Ok? ==> r.value == s.(operations := Table(s.operations.rows[o.id := o], s.operations.next))
    ensures r.Ok? && WellFormed(s) ==> WellFormed(r.value)
  {
    match Replace(s.operations, o.id, o, OperationEntity)
    case Ok(t) => Ok(s.(operations := t))
    case Err(e) => Err(e)
  }

  function RemoveOperation(s: Store, id: int): (r: Result<Store>)
    ensures r.Ok? <==> id in s.operations.rows
    ensures r.Err? ==> r.error == NotFound(OperationEntity)
    ensures r.Ok? ==> r.value == s.(operations := Table(s.operations.rows - {id}, s.operations.next))
    ensures r.Ok? && WellFormed(s) ==> WellFormed(r.value)
  {
    match Remove(s.operations, id, OperationEntity)
    case Ok(t) => Ok(s.(operations := t))
    case Err(e) => Err(e)
  }

  // ---- properties of the store ----

  /** A Save of a zero-id entity never overwrites: the new key was free and
      every earlier entry is still there. */
  lemma SaveFreshKeepsEntries(s: Store, o: Operation)
    requires WellFormed(s) && o.id == 0
    ensures var (s1, saved) := PutOperation(s, o);
      saved.id == s.operations.next && saved.id !in s.operations.rows
      && s.operations.rows.Keys < s1.operations.rows.Keys
      && s1.operations.next == s.operations.next + 1
  {
    var (s1, saved) := PutOperation(s, o);
    assert saved.id in s1.operations.rows.Keys;
  }

  /** A Save with an explicit id silently replaces whatever was stored under
      it, and the number of entries does not grow. */
  lemma SaveExplicitOverwrites(s: Store, o: Operation)
    requires o.id != 0 && o.id in s.operations.rows
    ensures var (s1, saved) := PutOperation(s, o);
      saved == o && s1.operations.rows[o.id] == o && |s1.operations.rows| == |s.operations.rows|
  {
    var (s1, saved) := PutOperation(s, o);
    assert s1.operations.rows.Keys == s.operations.rows.Keys;
  }

  class MemoryRepository {
    var bankAccounts: map<int, BankAccount>
    var categories: map<int, Category>
    var operations: map<int, Operation>
    var nextBankAccountId: int
    var nextCategoryId: int
    var nextOperationId: int

    function State(): Store
      reads this
    {
      Store(Table(bankAccounts, nextBankAccountId),
            Table(categories, nextCategoryId),
            Table(operations, nextOperationId))
    }

    predicate Valid()
      reads this
    {
      WellFormed(State())
    }

    constructor ()
      ensures Valid() && State() == EmptyStore
    {
      bankAccounts := map[];
      categories := map[];
      operations := map[];
      nextBankAccountId := 1;
      nextCategoryId := 1;
      nextOperationId := 1;
    }

    // ---- bank accounts ----

    method GetBankAccountById(id: int) returns (r: Result<BankAccount>)
      requires Valid()
      ensures r == FindAccount(State(), id)
    {
      if id !in bankAccounts {
        return Err(NotFound(BankAccountEntity));
      }
      r := Ok(bankAccounts[id]);
    }

    method GetAllBankAccounts() returns (r: seq<BankAccount>)
      requires Valid()
      ensures Lists(r, bankAccounts, AccountKey)
    {
      r := Collect(bankAccounts, (a: BankAccount) => true, AccountKey);
      assert Filter(bankAccounts, (a: BankAccount) => true) == bankAccounts;
    }

    method SaveBankAccount(a: BankAccount) returns (saved: BankAccount)
      requires Valid()
      modifies this
      ensures Valid()
      ensures (State(), saved) == PutAccount(old(State()), a)
    {
      saved := a;
      if a.id == 0 {
        saved := a.(id := nextBankAccountId);
        nextBankAccountId := nextBankAccountId + 1;
      } else if a.id >= nextBankAccountId {
        nextBankAccountId := a.id + 1;
      }
      bankAccounts := bankAccounts[saved.id := saved];
    }

    method UpdateBankAccount(a: BankAccount) returns (r: Outcome)
      requires Valid()
      modifies this
      ensures Valid()
      ensures var e := ReplaceAccount(old(State()), a);
        if e.Ok? then r == Pass && State() == e.value
        else r == Fail(e.error) && State() == old(State())
    {
      if a.id !in bankAccounts {
        return Fail(NotFound(BankAccountEntity));
      }
      bankAccounts := bankAccounts[a.id := a];
      r := Pass;
    }

    method DeleteBankAccount(id: int) returns (r: Outcome)
      requires Valid()
      modifies this
      ensures Valid()
      ensures var e := RemoveAccount(old(State()), id);
        if e.Ok? then r == Pass && State() == e.value
        else r == Fail(e.error) && State() == old(State())
    {
      if id !in bankAccounts {
        return Fail(NotFound(BankAccountEntity));
      }
      bankAccounts := bankAccounts - {id};
      r := Pass;
    }

    // ---- categories ----

    method GetCategoryById(id: int) returns (r: Result<Category>)
      requires Valid()
      ensures r == FindCategory(State(), id)
    {
      if id !in categories {
        return Err(NotFound(CategoryEntity));
      }
      r := Ok(categories[id]);
    }

    method GetAllCategories() returns (r: seq<Category>)
      requires Valid()
      ensures Lists(r, categories, CategoryKey)
    {
      r := Collect(categories, (c: Category) => true, CategoryKey);
      assert Filter(categories, (c: Category) => true) == categories;
    }

    method GetCategoriesByType(opType: OperationType) returns (r: seq<Category>)
      requires Valid()
      ensures Lists(r, OfKind(categories, opType), CategoryKey)
    {
      r := Collect(categories, (c: Category) => c.opType == opType, CategoryKey);
      assert Filter(categories, (c: Category) => c.opType == opType) == OfKind(categories, opType);
    }

    method SaveCategory(c: Category) returns (saved: Category)
      requires Valid()
      modifies this
      ensures Valid()
      ensures (State(), saved) == PutCategory(old(State()), c)
    {
      saved := c;
      if c.id == 0 {
        saved := c.(id := nextCategoryId);
        nextCategoryId := nextCategoryId + 1;
      } else if c.id >= nextCategoryId {
        nextCategoryId := c.id + 1;
      }
      categories := categories[saved.id := saved];
    }

    method UpdateCategory(c: Category) returns (r: Outcome)
      requires Valid()
      modifies this
      ensures Valid()
      ensures var e := ReplaceCategory(old(State()), c);
        if e.Ok? then r == Pass && State() == e.value
        else r == Fail(e.error) && State() == old(State())
    {
      if c.id !in categories {
        return Fail(NotFound(CategoryEntity));
      }
      categories := categories[c.id := c];
      r := Pass;
    }

    method DeleteCategory(id: int) returns (r: Outcome)
      requires Valid()
      modifies this
      ensures Valid()
      ensures var e := RemoveCategory(old(State()), id);
        if e.Ok? then r == Pass && State() == e.value
        else r == Fail(e.error) && State() == old(State())
    {
      if id !in categories {
        return Fail(NotFound(CategoryEntity));
      }
      categories := categories - {id};
      r := Pass;
    }

    // ---- operations ----

    method GetOperationById(id: int) returns (r: Result<Operation>)
      requires Valid()
      ensures r == FindOperation(State(), id)
    {
      if id !in operations {
        return Err(NotFound(OperationEntity));
      }
      r := Ok(operations[id]);
    }

    /** The loop of every operation query: the operations the selector keeps. */
    method Select(sel: Selector) returns (r: seq<Operation>)
      requires Valid()
      ensures Lists(r, Where(operations, sel), OperationKey)
    {
      r := Collect(operations, (o: Operation) => Selects(sel, o), OperationKey);
      assert Filter(operations, (o: Operation) => Selects(sel, o)) == Where(operations, sel);
    }

    method GetAllOperations() returns (r: seq<Operation>)
      requires Valid()
      ensures Lists(r, operations, OperationKey)
    {
      r := Select(AnyOperation);
      assert Where(operations, AnyOperation) == operations;
    }

    method GetOperationsByBankAccountId(bankAccountId: int) returns (r: seq<Operation>)
      requires Valid()
      ensures Lists(r, Where(operations, OfAccount(bankAccountId)), OperationKey)
    {
      r := Select(OfAccount(bankAccountId));
    }

    method GetOperationsByCategoryId(categoryId: int) returns (r: seq<Operation>)
      requires Valid()
      ensures Lists(r, Where(operations, OfCategory(categoryId)), OperationKey)
    {
      r := Select(OfCategory(categoryId));
    }

    method GetOperationsByDateRange(start: Date, end: Date) returns (r: seq<Operation>)
      requires Valid()
      ensures Lists(r, Where(operations, Between(start, end)), OperationKey)
    {
      r := Select(Between(start, end));
    }

    method GetOperationsByTypeAndDateRange(opType: OperationType, start: Date, end: Date)
      returns (r: seq<Operation>)
      requires Valid()
      ensures Lists(r, Where(operations, OfTypeBetween(opType, start, end)), OperationKey)
    {
      r := Select(OfTypeBetween(opType, start, end));
    }

    method SaveOperation(o: Operation) returns (saved: Operation)
      requires Valid()
      modifies this
      ensures Valid()
      ensures (State(), saved) == PutOperation(old(State()), o)
    {
      saved := o;
      if o.id == 0 {
        saved := o.(id := nextOperationId);
        nextOperationId := nextOperationId + 1;
      } else if o.id >= nextOperationId {
        nextOperationId := o.id + 1;
      }
      operations := operations[saved.id := saved];
    }

    method UpdateOperation(o: Operation) returns (r: Outcome)
      requires Valid()
      modifies this
      ensures Valid()
      ensures var e := ReplaceOperation(old(State()), o);
        if e.Ok? then r == Pass && State() == e.value
        else r == Fail(e.error) && State() == old(State())
    {
      if o.id !in operations {
        return Fail(NotFound(OperationEntity));
      }
      operations := operations[o.id := o];
      r := Pass;
    }

    method DeleteOperation(id: int) returns (r: Outcome)
      requires Valid()
      modifies this
      ensures Valid()
      ensures var e := RemoveOperation(old(State()), id);
        if e.Ok? then r == Pass && State() == e.value
        else r == Fail(e.error) && State() == old(State())
    {
      if id !in operations {
        return Fail(NotFound(OperationEntity));
      }
      operations := operations - {id};
      r := Pass;
    }
  }
}
