/**
  The analytics commands (application/commands/analytics_commands.go). Each
  command asks the analytics facade for one figure over its period, reshapes
  it, and sends it on its result channel; a facade error goes to the error
  channel instead and is also returned. Either channel may be nil, in which
  case nothing is sent on it.

  The category breakdowns are re-keyed by category name. Go ranges over the
  facade's map in no fixed order, and a later category overwrites an earlier
  one of the same name, so when two kept categories share a name the entry
  holds the amount of one of them, and which one is not determined.
*/
module Commands {
  import opened Models
  import opened Persistence
  import AnalyticsFacade

  /** A Go channel, seen from its sending side: the values sent so far. */
  class Channel<T> {
    var sent: seq<T>

    constructor ()
      ensures sent == []
    {
      sent := [];
    }

    method Send(x: T)
      modifies this
      ensures sent == old(sent) + [x]
    {
      sent := sent + [x];
    }
  }

  /** Which categories a breakdown keeps: those of one type, or those of any
      type but one. */
  datatype Keep = Only(opType: OperationType) | AllBut(opType: OperationType)

  predicate Keeps(keep: Keep, c: Category)
  {
    match keep
    case Only(t) => c.opType == t
    case AllBut(t) => c.opType != t
  }

  /** r is the breakdown, by name, of the kept categories among `done`: its
      names are exactly theirs, and each name's amount is the summary amount
      of some kept category of that name. */
  ghost predicate ByName(r: map<string, int>, summary: map<Category, int>, done: set<Category>, keep: Keep)
  {
    && (forall name :: name in r <==> exists c :: c in done && Keeps(keep, c) && c.name == name)
    && (forall name :: name in r ==>
          exists c :: c in done && c in summary && Keeps(keep, c) && c.name == name && r[name] == summary[c])
  }

  /** One step of a breakdown loop: category c visited, its amount stored
      under its name when it is kept. */
  lemma ByNameStep(r: map<string, int>, summary: map<Category, int>, done: set<Category>, keep: Keep, c: Category)
    requires ByName(r, summary, done, keep) && c in summary
    ensures ByName(if Keeps(keep, c) then r[c.name := summary[c]] else r, summary, done + {c}, keep)
  {
    var r1 := if Keeps(keep, c) then r[c.name := summary[c]] else r;
    forall name | name in r1
      ensures exists d :: d in done + {c} && d in summary && Keeps(keep, d) && d.name == name && r1[name] == summary[d]
    {
      if Keeps(keep, c) && name == c.name {
        assert c in done + {c};
      } else {
        var d :| d in done && d in summary && Keeps(keep, d) && d.name == name && r[name] == summary[d];
        assert d in done + {c};
      }
    }
    forall name | exists d :: d in done + {c} && Keeps(keep, d) && d.name == name
      ensures name in r1
    {
      var d :| d in done + {c} && Keeps(keep, d) && d.name == name;
      if d != c {
        assert d in done;
      }
    }
  }

  /** The loop of the expense and income commands: the kept categories of
      the summary, keyed by name. */
  method SplitByName(summary: map<Category, int>, keep: Keep) returns (r: map<string, int>)
    ensures ByName(r, summary, summary.Keys, keep)
  {
    r := map[];
    var remaining := summary.Keys;
    while remaining != {}
      invariant remaining <= summary.Keys
      invariant ByName(r, summary, summary.Keys - remaining, keep)
      decreases |remaining|
    {
      var c :| c in remaining;
      ByNameStep(r, summary, summary.Keys - remaining, keep, c);
      if Keeps(keep, c) {
        r := r[c.name := summary[c]];
      }
      assert summary.Keys - (remaining - {c}) == (summary.Keys - remaining) + {c};
      remaining := remaining - {c};
    }
  }

  /** When no two kept categories share a name, the breakdown is determined:
      every kept category's amount is found under its name. */
  lemma UniqueNamesDetermine(r: map<string, int>, summary: map<Category, int>, keep: Keep)
    requires ByName(r, summary, summary.Keys, keep)
    requires forall c1, c2 ::
      (c1 in summary && c2 in summary && Keeps(keep, c1) && Keeps(keep, c2) && c1.name == c2.name) ==> c1 == c2
    ensures forall c :: c in summary && Keeps(keep, c) ==> c.name in r && r[c.name] == summary[c]
  {
    forall c | c in summary && Keeps(keep, c)
      ensures c.name in r && r[c.name] == summary[c]
    {
      assert c in summary.Keys;
      var d :| d in summary.Keys && d in summary && Keeps(keep, d) && d.name == c.name && r[c.name] == summary[d];
    }
  }

  /** Two kept categories of the same name collapse into one entry, whose
      amount is one of theirs. */
  lemma SameNameCollapses(r: map<string, int>, summary: map<Category, int>, keep: Keep, c1: Category, c2: Category)
    requires ByName(r, summary, summary.Keys, keep)
    requires c1 in summary && c2 in summary && Keeps(keep, c1) && Keeps(keep, c2) && c1.name == c2.name
    requires forall c :: c in summary && Keeps(keep, c) && c.name == c1.name ==> c == c1 || c == c2
    ensures c1.name in r && (r[c1.name] == summary[c1] || r[c1.name] == summary[c2])
  {
    assert c1 in summary.Keys;
    var d :| d in summary.Keys && d in summary && Keeps(keep, d) && d.name == c1.name && r[c1.name] == summary[d];
  }

  /** The figures of the statistics command. */
  datatype Statistics = Statistics(difference: int, incomes: map<string, int>, expenses: map<string, int>)

  /** The loop of the statistics command: income categories on one side,
      every other category on the other. */
  method SplitIncomesFromRest(summary: map<Category, int>) returns (incomes: map<string, int>, expenses: map<string, int>)
    ensures ByName(incomes, summary, summary.Keys, Only(Income))
    ensures ByName(expenses, summary, summary.Keys, AllBut(Income))
  {
    incomes := map[];
    expenses := map[];
    var remaining := summary.Keys;
    while remaining != {}
      invariant remaining <= summary.Keys
      invariant ByName(incomes, summary, summary.Keys - remaining, Only(Income))
      invariant ByName(expenses, summary, summary.Keys - remaining, AllBut(Income))
      decreases |remaining|
    {
      var c :| c in remaining;
      ByNameStep(incomes, summary, summary.Keys - remaining, Only(Income), c);
      ByNameStep(expenses, summary, summary.Keys - remaining, AllBut(Income), c);
      if c.opType == Income {
        incomes := incomes[c.name := summary[c]];
      } else {
        expenses := expenses[c.name := summary[c]];
      }
      assert summary.Keys - (remaining - {c}) == (summary.Keys - remaining) + {c};
      remaining := remaining - {c};
    }
  }

  /** The statistics split loses no category: each one's name is among the
      incomes or among the expenses. */
  lemma StatisticsCoverEveryCategory(incomes: map<string, int>, expenses: map<string, int>,
                                     summary: map<Category, int>)
    requires ByName(incomes, summary, summary.Keys, Only(Income))
    requires ByName(expenses, summary, summary.Keys, AllBut(Income))
    ensures forall c :: c in summary ==> c.name in incomes || c.name in expenses
  {
    forall c | c in summary
      ensures c.name in incomes || c.name in expenses
    {
      assert c in summary.Keys;
      if c.opType == Income {
        assert Keeps(Only(Income), c);
      } else {
        assert Keeps(AllBut(Income), c);
      }
    }
  }

  /** An expense breakdown holds no income category's name unless an
      expense category has the same name. */
  lemma ExpensesHoldOnlyExpenseNames(r: map<string, int>, summary: map<Category, int>, name: string)
    requires ByName(r, summary, summary.Keys, Only(Expense))
    requires forall c :: c in summary && c.name == name ==> c.opType != Expense
    ensures name !in r
  {
    forall c | c in summary.Keys && Keeps(Only(Expense), c)
      ensures c.name != name
    {
      assert c in summary;
    }
  }

  /** BalanceByPeriodCommand. `store` is the repository behind the command's
      analytics facade. */
  class BalanceByPeriodCommand {
    const store: MemoryRepository
    const startDate: Date
    const endDate: Date
    const resultCh: Channel?<int>
    const errorCh: Channel?<Error>

    constructor (store: MemoryRepository, startDate: Date, endDate: Date,
                 resultCh: Channel?<int>, errorCh: Channel?<Error>)
      ensures this.store == store && this.startDate == startDate && this.endDate == endDate
      ensures this.resultCh == resultCh && this.errorCh == errorCh
    {
      this.store := store;
      this.startDate := startDate;
      this.endDate := endDate;
      this.resultCh := resultCh;
      this.errorCh := errorCh;
    }

    method Execute() returns (r: Outcome)
      modifies resultCh, errorCh
      ensures match AnalyticsFacade.GetIncomeExpenseDifference(store.State(), startDate, endDate)
        case Err(e) =>
          && r == Fail(e)
          && (errorCh != null ==> errorCh.sent == old(errorCh.sent) + [e])
          && (resultCh != null ==> resultCh.sent == old(resultCh.sent))
        case Ok(balance) =>
          && r == Pass
          && (resultCh != null ==> resultCh.sent == old(resultCh.sent) + [balance])
          && (errorCh != null ==> errorCh.sent == old(errorCh.sent))
    {
      var balance := AnalyticsFacade.GetIncomeExpenseDifference(store.State(), startDate, endDate);
      if balance.Err? {
        if errorCh != null {
          errorCh.Send(balance.error);
        }
        return Fail(balance.error);
      }
      if resultCh != null {
        resultCh.Send(balance.value);
      }
      r := Pass;
    }
  }

  /** ExpensesByCategoryCommand and IncomesByCategoryCommand: the same
      command, keeping the Expense or the Income categories of the summary. */
  class ByCategoryCommand {
    const store: MemoryRepository
    const opType: OperationType
    const startDate: Date
    const endDate: Date
    const resultCh: Channel?<map<string, int>>
    const errorCh: Channel?<Error>

    constructor (store: MemoryRepository, opType: OperationType, startDate: Date, endDate: Date,
                 resultCh: Channel?<map<string, int>>, errorCh: Channel?<Error>)
      ensures this.store == store && this.opType == opType
      ensures this.startDate == startDate && this.endDate == endDate
      ensures this.resultCh == resultCh && this.errorCh == errorCh
    {
      this.store := store;
      this.opType := opType;
      this.startDate := startDate;
      this.endDate := endDate;
      this.resultCh := resultCh;
      this.errorCh := errorCh;
    }

    method Execute() returns (r: Outcome)
      modifies resultCh, errorCh
      ensures match AnalyticsFacade.GetCategorySummary(store.State(), startDate, endDate)
        case Err(e) =>
          && r == Fail(e)
          && (errorCh != null ==> errorCh.sent == old(errorCh.sent) + [e])
          && (resultCh != null ==> resultCh.sent == old(resultCh.sent))
        case Ok(summary) =>
          && r == Pass
          && (resultCh != null ==>
                && |resultCh.sent| == |old(resultCh.sent)| + 1
                && resultCh.sent[..|old(resultCh.sent)|] == old(resultCh.sent)
                && ByName(resultCh.sent[|old(resultCh.sent)|], summary, summary.Keys, Only(opType)))
          && (errorCh != null ==> errorCh.sent == old(errorCh.sent))
    {
      var categoryMap := AnalyticsFacade.GetCategorySummary(store.State(), startDate, endDate);
      if categoryMap.Err? {
        if errorCh != null {
          errorCh.Send(categoryMap.error);
        }
        return Fail(categoryMap.error);
      }
      var breakdown := SplitByName(categoryMap.value, Only(opType));
      if resultCh != null {
        resultCh.Send(breakdown);
      }
      r := Pass;
    }
  }

  /** StatisticsCommand: the difference passed through, and the summary split
      into incomes and everything else. */
  class StatisticsCommand {
    const store: MemoryRepository
    const startDate: Date
    const endDate: Date
    const resultCh: Channel?<Statistics>
    const errorCh: Channel?<Error>

    constructor (store: MemoryRepository, startDate: Date, endDate: Date,
                 resultCh: Channel?<Statistics>, errorCh: Channel?<Error>)
      ensures this.store == store && this.startDate == startDate && this.endDate == endDate
      ensures this.resultCh == resultCh && this.errorCh == errorCh
    {
      this.store := store;
      this.startDate := startDate;
      this.endDate := endDate;
      this.resultCh := resultCh;
      this.errorCh := errorCh;
    }

    method Execute() returns (r: Outcome)
      modifies resultCh, errorCh
      ensures match AnalyticsFacade.GetIncomeExpenseDifference(store.State(), startDate, endDate)
        case Err(e) =>
          && r == Fail(e)
          && (errorCh != null ==> errorCh.sent == old(errorCh.sent) + [e])
          && (resultCh != null ==> resultCh.sent == old(resultCh.sent))
        case Ok(difference) =>
          var summary := AnalyticsFacade.GetCategorySummary(store.State(), startDate, endDate);
          && summary.Ok?
          && r == Pass
          && (resultCh != null ==>
                && |resultCh.sent| == |old(resultCh.sent)| + 1
                && resultCh.sent[..|old(resultCh.sent)|] == old(resultCh.sent)
                && var stats := resultCh.sent[|old(resultCh.sent)|];
                   && stats.difference == difference
                   && ByName(stats.incomes, summary.value, summary.value.Keys, Only(Income))
                   && ByName(stats.expenses, summary.value, summary.value.Keys, AllBut(Income)))
          && (errorCh != null ==> errorCh.sent == old(errorCh.sent))
    {
      var difference := AnalyticsFacade.GetIncomeExpenseDifference(store.State(), startDate, endDate);
      if difference.Err? {
        if errorCh != null {
          errorCh.Send(difference.error);
        }
        return Fail(difference.error);
      }
      var categorySummary := AnalyticsFacade.GetCategorySummary(store.State(), startDate, endDate);
      if categorySummary.Err? {
        // Both facade calls check the same period, so the second one cannot fail.
        assert false;
      }
      var incomes, expenses := SplitIncomesFromRest(categorySummary.value);
      if resultCh != null {
        resultCh.Send(Statistics(difference.value, incomes, expenses));
      }
      r := Pass;
    }
  }
}
