/**
  The analytics service (application/analytics/analytics_service.go).

  Three figures are computed from the operations dated in a closed period:
  income minus expense, a per-category sum, and a twelve-month table of sums
  by type. Each is defined here as a function of the store; the class
  `AnalyticsService` computes them with the Go loops and is proved to return
  exactly those functions' values. It has no `modifies` clause: analytics
  never writes to a repository.
*/
module Analytics {
  import opened Models
  import opened Listings
  import opened Totals
  import opened Persistence

  /** The operations dated in the closed period from start to end. */
  function InRange(s: Store, start: Date, end: Date): map<int, Operation>
  {
    Where(s.operations.rows, Between(start, end))
  }

  /** A period whose start lies after its end contains no operation. */
  lemma ReversedPeriodIsEmpty(s: Store, start: Date, end: Date)
    requires After(start, end)
    ensures InRange(s, start, end) == map[]
  {
    WhereEmpty(s.operations.rows, Between(start, end));
  }

  // ---- GetIncomeExpenseDifference ----

  /** Income minus expense over a period, as the Go loop splits it: Income
      operations on one side, every other operation on the other. */
  function Difference(s: Store, start: Date, end: Date): int
  {
    var ops := InRange(s, start, end);
    Total(Where(ops, OfType(Income)), Unsigned) - Total(Where(ops, NotOfType(Income)), Unsigned)
  }

  /** The difference is the net change that the period's operations make to
      the account balances: the same signed sum that defines a balance. */
  lemma DifferenceIsNetBalanceChange(s: Store, start: Date, end: Date)
    ensures Difference(s, start, end) == Total(InRange(s, start, end), Signed)
  {
    SignedIsIncomeMinusRest(InRange(s, start, end));
  }

  /** A period without operations has a difference of zero. */
  lemma QuietPeriodHasNoDifference(s: Store, start: Date, end: Date)
    requires forall k :: k in s.operations.rows ==> !InPeriod(s.operations.rows[k].date, start, end)
    ensures Difference(s, start, end) == 0
  {
    WhereEmpty(s.operations.rows, Between(start, end));
    assert InRange(s, start, end) == map[];
    assert Where(map[], OfType(Income)) == map[];
    assert Where(map[], NotOfType(Income)) == map[];
  }

  // ---- GetCategorySummary ----

  /** Each category of cats that some operation of m refers to, mapped to the
      plain sum of those operations' amounts. Operations whose category is
      not in cats count nowhere. */
  function SummaryOf(m: map<int, Operation>, cats: map<int, Category>): map<Category, int>
  {
    map c | c in Stored(cats) && c.id in CategoriesUsed(m) :: Total(Where(m, OfCategory(c.id)), Unsigned)
  }

  /** The category ids that the operations of m refer to. */
  function CategoriesUsed(m: map<int, Operation>): set<int>
  {
    set k | k in m :: m[k].categoryId
  }

  function CategorySummary(s: Store, start: Date, end: Date): map<Category, int>
  {
    SummaryOf(InRange(s, start, end), s.categories.rows)
  }

  /** In a map keyed by id, a category value is found under its own id. */
  lemma StoredUnderOwnId(cats: map<int, Category>)
    requires KeyedBy(cats, CategoryKey)
    ensures forall c :: c in Stored(cats) ==> c.id in cats && cats[c.id] == c
  {
    forall c | c in Stored(cats)
      ensures c.id in cats && cats[c.id] == c
    {
      var j :| j in cats && cats[j] == c;
    }
  }

  /** The summary holds exactly the stored categories that have an operation
      in the period. */
  lemma CategorySummaryKeys(s: Store, start: Date, end: Date)
    requires WellFormed(s)
    ensures forall c :: c in CategorySummary(s, start, end) <==>
      && c.id in s.categories.rows && s.categories.rows[c.id] == c
      && exists k :: k in s.operations.rows && s.operations.rows[k].categoryId == c.id
                     && InPeriod(s.operations.rows[k].date, start, end)
    ensures forall c :: c in CategorySummary(s, start, end) ==>
      CategorySummary(s, start, end)[c] == Total(Where(InRange(s, start, end), OfCategory(c.id)), Unsigned)
  {
    StoredUnderOwnId(s.categories.rows);
    var ops := InRange(s, start, end);
    forall c: Category
      ensures c.id in CategoriesUsed(ops) <==>
        exists k :: k in s.operations.rows && s.operations.rows[k].categoryId == c.id
                    && InPeriod(s.operations.rows[k].date, start, end)
    {
      if c.id in CategoriesUsed(ops) {
        var k :| k in ops && ops[k].categoryId == c.id;
        assert k in s.operations.rows;
      }
    }
  }

  /** The update of the GetCategorySummary loop for one operation: add its
      amount to its category's entry, starting from zero when there is none;
      an operation whose category is not stored changes nothing. */
  function AddToSummary(r: map<Category, int>, cats: map<int, Category>, o: Operation): map<Category, int>
  {
    if o.categoryId in cats then
      var c := cats[o.categoryId];
      r[c := (if c in r then r[c] else 0) + o.amount]
    else r
  }

  /** One more operation under a fresh key adds its amount to its category's
      entry, creating the entry at zero when it is missing, and changes nothing
      when its category is not stored. */
  lemma SummaryInsert(m: map<int, Operation>, cats: map<int, Category>, k: int, o: Operation)
    requires KeyedBy(cats, CategoryKey) && k !in m
    ensures SummaryOf(m[k := o], cats) == AddToSummary(SummaryOf(m, cats), cats, o)
  {
    if o.categoryId in cats {
      SummaryInsertStored(m, cats, k, o);
    } else {
      SummaryInsertOrphan(m, cats, k, o);
    }
  }

  lemma SummaryInsertStored(m: map<int, Operation>, cats: map<int, Category>, k: int, o: Operation)
    requires KeyedBy(cats, CategoryKey) && k !in m && o.categoryId in cats
    ensures var c := cats[o.categoryId];
      && c in SummaryOf(m[k := o], cats)
      && SummaryOf(m[k := o], cats) == AddToSummary(SummaryOf(m, cats), cats, o)
  {
    var r1 := SummaryOf(m[k := o], cats);
    var expected := AddToSummary(SummaryOf(m, cats), cats, o);
    forall c: Category
      ensures (c in r1 <==> c in expected) && (c in r1 ==> r1[c] == expected[c])
    {
      SummaryEntryStored(m, cats, k, o, c);
    }
    SameEntries(r1, expected);
  }

  /** SummaryInsertStored for a single category. */
  lemma SummaryEntryStored(m: map<int, Operation>, cats: map<int, Category>, k: int, o: Operation, c: Category)
    requires KeyedBy(cats, CategoryKey) && k !in m && o.categoryId in cats
    ensures var expected := AddToSummary(SummaryOf(m, cats), cats, o);
      && (c in SummaryOf(m[k := o], cats) <==> c in expected)
      && (c in expected ==> SummaryOf(m[k := o], cats)[c] == expected[c])
  {
    StoredUnderOwnId(cats);
    CategoryTotalInsert(m, k, o, c.id);
  }

  lemma SummaryInsertOrphan(m: map<int, Operation>, cats: map<int, Category>, k: int, o: Operation)
    requires KeyedBy(cats, CategoryKey) && k !in m && o.categoryId !in cats
    ensures SummaryOf(m[k := o], cats) == SummaryOf(m, cats)
  {
    StoredUnderOwnId(cats);
    var r := SummaryOf(m, cats);
    var r1 := SummaryOf(m[k := o], cats);
    forall c: Category
      ensures c in r1 <==> c in r
      ensures c in r1 ==> r1[c] == r[c]
    {
      CategoryTotalInsert(m, k, o, c.id);
    }
    SameEntries(r1, r);
  }

  /** One more operation under a fresh key changes one category's selection
      and total, and only when it belongs to that category. */
  lemma CategoryTotalInsert(m: map<int, Operation>, k: int, o: Operation, id: int)
    requires k !in m
    ensures Total(Where(m[k := o], OfCategory(id)), Unsigned)
      == Total(Where(m, OfCategory(id)), Unsigned) + (if o.categoryId == id then o.amount else 0)
    ensures CategoriesUsed(m[k := o]) == CategoriesUsed(m) + {o.categoryId}
  {
    TotalAfterWrite(m, k, o, OfCategory(id), Unsigned);
  }

  /** Two maps with the same keys and the same value under each key are equal. */
  lemma SameEntries<K, V>(a: map<K, V>, b: map<K, V>)
    requires forall x :: x in a <==> x in b
    requires forall x :: x in a ==> a[x] == b[x]
    ensures a == b
  {
  }

  /** An operation whose category is not stored leaves the summary as it is. */
  lemma SummarySkipsOrphans(m: map<int, Operation>, cats: map<int, Category>, k: int, o: Operation)
    requires KeyedBy(cats, CategoryKey) && k !in m && o.categoryId !in cats
    ensures SummaryOf(m[k := o], cats) == SummaryOf(m, cats)
  {
    SummaryInsert(m, cats, k, o);
  }

  // ---- GetMonthlyDynamics ----

  function YearStart(year: int): Date { Date(year, 1, 1) }
  function YearEnd(year: int): Date { Date(year, 12, 31) }

  /** The period from January 1 to December 31 holds exactly the dates of
      that year. */
  lemma YearPeriod(d: Date, year: int)
    ensures InPeriod(d, YearStart(year), YearEnd(year)) <==> d.year == year
  {
  }

  /** The types of the operations of m dated in a month. */
  function TypesIn(m: map<int, Operation>, month: Month): set<OperationType>
  {
    set k | k in m && m[k].date.month == month :: m[k].opType
  }

  /** The types a month's row has an entry for: Income and Expense always,
      and any other type that occurs that month. */
  function RowTypes(m: map<int, Operation>, month: Month): set<OperationType>
  {
    {Income, Expense} + TypesIn(m, month)
  }

  /** The sum of the amounts of the operations of m of type t dated in a month. */
  function MonthTotal(m: map<int, Operation>, t: OperationType, month: Month): int
  {
    Total(Where(m, OfTypeInMonth(t, month)), Unsigned)
  }

  /** The row of one month. */
  function MonthRow(m: map<int, Operation>, month: Month): map<OperationType, int>
  {
    map t | t in RowTypes(m, month) :: MonthTotal(m, t, month)
  }

  /** The table of the twelve months. */
  function MonthlyOf(m: map<int, Operation>): map<Month, map<OperationType, int>>
  {
    map month: Month | 1 <= month <= 12 :: MonthRow(m, month)
  }

  function MonthlyDynamics(s: Store, year: int): map<Month, map<OperationType, int>>
  {
    MonthlyOf(Where(s.operations.rows, Between(YearStart(year), YearEnd(year))))
  }

  /** r is the monthly table of m, entry by entry: a row for every month,
      an entry for exactly the row's types, and each entry the month's total
      for its type. */
  ghost predicate IsMonthlyTable(r: map<Month, map<OperationType, int>>, m: map<int, Operation>)
  {
    && (forall month: Month :: month in r)
    && (forall month: Month, t: OperationType :: t in r[month] <==> t in RowTypes(m, month))
    && (forall month: Month, t: OperationType :: t in r[month] ==> r[month][t] == MonthTotal(m, t, month))
  }

  /** The entry of a row for a type, zero when the row has none. */
  function Entry(row: map<OperationType, int>, t: OperationType): int
  {
    if t in row then row[t] else 0
  }

  /** The row a month starts with, before any operation is added. */
  function ZeroRow(): map<OperationType, int>
  {
    map[Income := 0, Expense := 0]
  }

  /** The update of the Go loop for one operation: add its amount to the
      entry of its month and type, starting from zero when there is none. */
  function AddToTable(r: map<Month, map<OperationType, int>>, o: Operation): map<Month, map<OperationType, int>>
    requires o.date.month in r
  {
    var row := r[o.date.month];
    r[o.date.month := row[o.opType := Entry(row, o.opType) + o.amount]]
  }

  lemma MonthlyOfIsTable(m: map<int, Operation>)
    ensures IsMonthlyTable(MonthlyOf(m), m)
  {
  }

  /** Every month has Income and Expense entries, zero when nothing of that
      type happened that month. */
  lemma MonthlyShape(m: map<int, Operation>)
    ensures forall month: Month ::
      (month in MonthlyOf(m) && Income in MonthlyOf(m)[month] && Expense in MonthlyOf(m)[month])
  {
  }

  /** Two tables of the same operations are the same table. */
  lemma TableUnique(r1: map<Month, map<OperationType, int>>, r2: map<Month, map<OperationType, int>>,
                    m: map<int, Operation>)
    requires IsMonthlyTable(r1, m) && IsMonthlyTable(r2, m)
    ensures r1 == r2
  {
    forall month: Month
      ensures r1[month] == r2[month]
    {
      SameEntries(r1[month], r2[month]);
    }
    SameEntries(r1, r2);
  }

  /** In a table every entry, present or not, is the month's total for its
      type. */
  lemma TableEntry(r: map<Month, map<OperationType, int>>, m: map<int, Operation>, month: Month, t: OperationType)
    requires IsMonthlyTable(r, m)
    ensures Entry(r[month], t) == MonthTotal(m, t, month)
  {
    if t !in r[month] {
      assert t !in TypesIn(m, month);
      AbsentTypeTotal(m, month, t);
    }
  }

  /** A type that does not occur in a month has a zero total there. */
  lemma AbsentTypeTotal(m: map<int, Operation>, month: Month, t: OperationType)
    requires t !in TypesIn(m, month)
    ensures MonthTotal(m, t, month) == 0
  {
    forall k | k in m && m[k].date.month == month
      ensures m[k].opType != t
    {
      assert m[k].opType in TypesIn(m, month);
    }
    NothingSelected(m, OfTypeInMonth(t, month), Unsigned);
  }

  /** The table of no operations: a zero row for every month. */
  lemma ZeroTable(r: map<Month, map<OperationType, int>>)
    requires forall month: Month :: month in r && r[month] == ZeroRow()
    ensures IsMonthlyTable(r, map[])
  {
    forall month: Month, t: OperationType
      ensures Where(map[], OfTypeInMonth(t, month)) == map[]
    {
    }
    forall month: Month
      ensures TypesIn(map[], month) == {}
    {
    }
  }

  /** The loop step: adding one operation under a fresh key to the table of
      m gives the table of m with that operation. */
  lemma TableInsert(r: map<Month, map<OperationType, int>>, m: map<int, Operation>, k: int, o: Operation)
    requires IsMonthlyTable(r, m) && k !in m
    ensures IsMonthlyTable(AddToTable(r, o), m[k := o])
  {
    var r1 := AddToTable(r, o);
    forall month: Month, t: OperationType
      ensures t in r1[month] <==> t in RowTypes(m[k := o], month)
      ensures t in r1[month] ==> r1[month][t] == MonthTotal(m[k := o], t, month)
    {
      TableEntry(r, m, month, t);
      EntryInsert(r, m, k, o, month, t);
    }
  }

  /** TableInsert for one entry. */
  lemma EntryInsert(r: map<Month, map<OperationType, int>>, m: map<int, Operation>, k: int, o: Operation,
                    month: Month, t: OperationType)
    requires k !in m && month in r && o.date.month in r
    requires t in r[month] <==> t in RowTypes(m, month)
    requires Entry(r[month], t) == MonthTotal(m, t, month)
    ensures var r1 := AddToTable(r, o);
      && (t in r1[month] <==> t in RowTypes(m[k := o], month))
      && (t in r1[month] ==> r1[month][t] == MonthTotal(m[k := o], t, month))
  {
    TypesInInsert(m, k, o, month);
    TotalAfterWrite(m, k, o, OfTypeInMonth(t, month), Unsigned);
  }

  lemma TypesInInsert(m: map<int, Operation>, k: int, o: Operation, month: Month)
    requires k !in m
    ensures TypesIn(m[k := o], month) == TypesIn(m, month) + (if o.date.month == month then {o.opType} else {})
  {
    var before := TypesIn(m, month);
    var after := TypesIn(m[k := o], month);
    forall t | t in after
      ensures t in before || (o.date.month == month && t == o.opType)
    {
      var j :| j in m[k := o] && m[k := o][j].date.month == month && m[k := o][j].opType == t;
      if j != k {
        assert j in m && m[j].date.month == month && m[j].opType == t;
      }
    }
    forall t | t in before
      ensures t in after
    {
      var j :| j in m && m[j].date.month == month && m[j].opType == t;
      assert j != k && m[k := o][j] == m[j];
    }
    if o.date.month == month {
      assert m[k := o][k] == o;
    }
  }

  /** The sum of a type's entries over the first n months of a table. */
  function MonthsSum(r: map<Month, map<OperationType, int>>, t: OperationType, n: nat): int
    requires n <= 12 && forall month: Month :: month in r
  {
    if n == 0 then 0 else MonthsSum(r, t, n - 1) + Entry(r[n], t)
  }

  /** The sum, over the first n months, of each month's total for a type. */
  function MonthTotals(m: map<int, Operation>, t: OperationType, n: nat): int
    requires n <= 12
  {
    if n == 0 then 0 else MonthTotals(m, t, n - 1) + MonthTotal(m, t, n)
  }

  lemma {:induction false} MonthTotalsInsert(m: map<int, Operation>, k: int, o: Operation, t: OperationType, n: nat)
    requires k !in m && n <= 12
    ensures MonthTotals(m[k := o], t, n) ==
      MonthTotals(m, t, n) + (if o.opType == t && o.date.month <= n then o.amount else 0)
  {
    if n > 0 {
      MonthTotalsInsert(m, k, o, t, n - 1);
      TotalAfterWrite(m, k, o, OfTypeInMonth(t, n), Unsigned);
      assert MonthTotal(m[k := o], t, n) ==
        MonthTotal(m, t, n) + (if o.opType == t && o.date.month == n then o.amount else 0);
    }
  }

  lemma {:induction false} MonthTotalsOfNothing(t: OperationType, n: nat)
    requires n <= 12
    ensures MonthTotals(map[], t, n) == 0
  {
    if n > 0 {
      MonthTotalsOfNothing(t, n - 1);
      assert Where(map[], OfTypeInMonth(t, n)) == map[];
    }
  }

  /** The twelve months split a type's total without loss or overlap. */
  lemma {:induction false} MonthsPartition(m: map<int, Operation>, t: OperationType)
    ensures MonthTotals(m, t, 12) == Total(Where(m, OfType(t)), Unsigned)
    decreases |m|
  {
    if m == map[] {
      MonthTotalsOfNothing(t, 12);
      assert Where(m, OfType(t)) == map[];
    } else {
      var k, rest := SplitOff(m);
      MonthsPartition(rest, t);
      MonthTotalsInsert(rest, k, m[k], t, 12);
      TotalAfterWrite(rest, k, m[k], OfType(t), Unsigned);
    }
  }

  /** The column of a type in r holds, month by month, that month's total. */
  ghost predicate ColumnMatches(r: map<Month, map<OperationType, int>>, m: map<int, Operation>, t: OperationType)
  {
    forall month: Month :: month in r && Entry(r[month], t) == MonthTotal(m, t, month)
  }

  lemma {:induction false} MonthsSumOfTable(r: map<Month, map<OperationType, int>>, m: map<int, Operation>,
                                            t: OperationType, n: nat)
    requires ColumnMatches(r, m, t) && n <= 12
    ensures MonthsSum(r, t, n) == MonthTotals(m, t, n)
  {
    if n > 0 {
      MonthsSumOfTable(r, m, t, n - 1);
      assert Entry(r[n], t) == MonthTotal(m, t, n);
    }
  }

  /** The twelve monthly entries of a type add up to that type's total over
      the whole year: every operation dated in the year is counted once, in
      its own month. */
  lemma MonthlyAddsUpToYear(s: Store, year: int, t: OperationType)
    ensures MonthsSum(MonthlyDynamics(s, year), t, 12) ==
      Total(Where(Where(s.operations.rows, Between(YearStart(year), YearEnd(year))), OfType(t)), Unsigned)
  {
    var m := Where(s.operations.rows, Between(YearStart(year), YearEnd(year)));
    MonthlyOfIsTable(m);
    forall month: Month
      ensures month in MonthlyOf(m) && Entry(MonthlyOf(m)[month], t) == MonthTotal(m, t, month)
    {
      TableEntry(MonthlyOf(m), m, month, t);
    }
    MonthsSumOfTable(MonthlyOf(m), m, t, 12);
    MonthsPartition(m, t);
  }

  /** The analytics service: it reads the repository and never writes to it. */
  class AnalyticsService {
    const repo: MemoryRepository

    constructor (repo: MemoryRepository)
      ensures this.repo == repo
    {
      this.repo := repo;
    }

    method GetIncomeExpenseDifference(start: Date, end: Date) returns (d: int)
      requires repo.Valid()
      ensures d == Difference(repo.State(), start, end)
    {
      var operations := repo.GetOperationsByDateRange(start, end);
      var income := 0;
      var expense := 0;
      for i := 0 to |operations|
        invariant income == Total(Where(Index(operations[..i], OperationKey), OfType(Income)), Unsigned)
        invariant expense == Total(Where(Index(operations[..i], OperationKey), NotOfType(Income)), Unsigned)
      {
        var done := Index(operations[..i], OperationKey);
        NextIsNew(operations, i, OperationKey);
        IndexPrefix(operations, i, OperationKey);
        TotalAfterWrite(done, operations[i].id, operations[i], OfType(Income), Unsigned);
        TotalAfterWrite(done, operations[i].id, operations[i], NotOfType(Income), Unsigned);
        if operations[i].opType == Income {
          income := income + operations[i].amount;
        } else {
          expense := expense + operations[i].amount;
        }
      }
      assert operations[..|operations|] == operations;
      d := income - expense;
    }

    method GetCategorySummary(start: Date, end: Date) returns (result: map<Category, int>)
      requires repo.Valid()
      ensures result == CategorySummary(repo.State(), start, end)
    {
      var operations := repo.GetOperationsByDateRange(start, end);
      var categories := repo.GetAllCategories();
      var categoryMap: map<int, Category> := map[];
      for i := 0 to |categories|
        invariant categoryMap == Index(categories[..i], CategoryKey)
      {
        IndexPrefix(categories, i, CategoryKey);
        categoryMap := categoryMap[categories[i].id := categories[i]];
      }
      assert categories[..|categories|] == categories;
      result := Summarise(operations, categoryMap);
    }

    method GetMonthlyDynamics(year: int) returns (result: map<Month, map<OperationType, int>>)
      requires repo.Valid()
      ensures result == MonthlyDynamics(repo.State(), year)
    {
      var operations := repo.GetOperationsByDateRange(YearStart(year), YearEnd(year));
      ghost var inYear := Where(repo.operations, Between(YearStart(year), YearEnd(year)));
      result := Tabulate(operations);
      MonthlyOfIsTable(inYear);
      TableUnique(result, MonthlyOf(inYear), inYear);
    }
  }

  /** The second loop of GetCategorySummary: each listed operation's amount
      added to its category's entry. */
  method Summarise(operations: seq<Operation>, categoryMap: map<int, Category>) returns (result: map<Category, int>)
    requires DistinctKeys(operations, OperationKey) && KeyedBy(categoryMap, CategoryKey)
    ensures result == SummaryOf(Index(operations, OperationKey), categoryMap)
  {
    result := map[];
    assert Index(operations[..0], OperationKey) == map[];
    for i := 0 to |operations|
      invariant result == SummaryOf(Index(operations[..i], OperationKey), categoryMap)
    {
      NextIsNew(operations, i, OperationKey);
      IndexPrefix(operations, i, OperationKey);
      SummaryInsert(Index(operations[..i], OperationKey), categoryMap, operations[i].id, operations[i]);
      result := AddToSummary(result, categoryMap, operations[i]);
    }
    assert operations[..|operations|] == operations;
  }

  /** The two loops of GetMonthlyDynamics: a zero Income and Expense entry for
      every month, then each listed operation's amount added to the entry of
      its month and type. */
  method Tabulate(operations: seq<Operation>) returns (result: map<Month, map<OperationType, int>>)
    requires DistinctKeys(operations, OperationKey)
    ensures IsMonthlyTable(result, Index(operations, OperationKey))
  {
    result := map[];
    for month := 1 to 13
      invariant forall j: Month :: j in result <==> j < month
      invariant forall j :: j in result ==> result[j] == ZeroRow()
    {
      result := result[month := ZeroRow()];
    }
    ZeroTable(result);
    assert Index(operations[..0], OperationKey) == map[];
    for i := 0 to |operations|
      invariant IsMonthlyTable(result, Index(operations[..i], OperationKey))
    {
      NextIsNew(operations, i, OperationKey);
      IndexPrefix(operations, i, OperationKey);
      ghost var done := Index(operations[..i], OperationKey);
      TableInsert(result, done, operations[i].id, operations[i]);
      assert Index(operations[..i + 1], OperationKey) == done[operations[i].id := operations[i]];
      result := AddToTable(result, operations[i]);
    }
    assert operations[..|operations|] == operations;
  }
}
