/**
  Selections and sums over a keyed collection of operations.

  The store keeps operations in a map from id to operation. `Where` is the part
  of such a map that a filter query selects, and `Total` the sum of a measure
  over the entries of a map, which is what every balance and every analytics
  figure is.
*/
module Totals {
  import opened Models
  import opened Listings

  /** The filters of the repository's queries and of the analytics loops. */
  datatype Selector =
    | AnyOperation
    | OfAccount(bankAccountId: int)
    | OfCategory(categoryId: int)
    | OfType(opType: OperationType)
    | NotOfType(opType: OperationType)
    | Between(start: Date, end: Date)
    | OfTypeBetween(opType: OperationType, start: Date, end: Date)
    | InMonth(month: Month)
    | OfTypeInMonth(opType: OperationType, month: Month)

  /** The closed interval test of the date-range queries: d is neither before
      start nor after end. */
  predicate InPeriod(d: Date, start: Date, end: Date)
  {
    !After(start, d) && !After(d, end)
  }

  predicate Selects(sel: Selector, o: Operation)
  {
    match sel
    case AnyOperation => true
    case OfAccount(id) => o.bankAccountId == id
    case OfCategory(id) => o.categoryId == id
    case OfType(t) => o.opType == t
    case NotOfType(t) => o.opType != t
    case Between(start, end) => InPeriod(o.date, start, end)
    case OfTypeBetween(t, start, end) => o.opType == t && InPeriod(o.date, start, end)
    case InMonth(m) => o.date.month == m
    case OfTypeInMonth(t, m) => o.opType == t && o.date.month == m
  }

  /** The entries of m that sel keeps. */
  function Where(m: map<int, Operation>, sel: Selector): (r: map<int, Operation>)
    ensures forall k :: k in r <==> k in m && Selects(sel, m[k])
    ensures forall k :: k in r ==> r[k] == m[k]
  {
    map k | k in m && Selects(sel, m[k]) :: m[k]
  }

  /** A selection is empty exactly when no entry is selected. */
  lemma WhereEmpty(m: map<int, Operation>, sel: Selector)
    ensures Where(m, sel) == map[] <==> forall k :: k in m ==> !Selects(sel, m[k])
  {
    var w := Where(m, sel);
    if w != map[] {
      assert w.Keys != {};
      Inhabited(w.Keys);
    }
  }

  /** A total over a selection that keeps nothing is zero. */
  lemma NothingSelected(m: map<int, Operation>, sel: Selector, w: Measure)
    requires forall k :: k in m ==> !Selects(sel, m[k])
    ensures Total(Where(m, sel), w) == 0
  {
    WhereEmpty(m, sel);
  }

  /** What is summed: the signed effect on a balance (income adds, every
      other type subtracts) or the plain amount. */
  datatype Measure = Signed | Unsigned

  function Weight(o: Operation, w: Measure): int
  {
    match w
    case Unsigned => o.amount
    case Signed => if o.opType == Income then o.amount else -o.amount
  }

  lemma {:induction false} MinKeyExists(s: set<int>)
    requires s != {}
    ensures exists k :: k in s && forall j :: j in s ==> k <= j
    decreases |s|
  {
    Inhabited(s);
    var x :| x in s;
    if s == {x} {
      assert forall j :: j in s ==> x <= j;
    } else {
      MinKeyExists(s - {x});
      var k :| k in s - {x} && forall j :: j in s - {x} ==> k <= j;
      var least := if x < k then x else k;
      forall j | j in s
        ensures least <= j
      {
        if j != x {
          assert j in s - {x};
        }
      }
      assert least in s;
    }
  }

  function MinKey(s: set<int>): (k: int)
    requires s != {}
    ensures k in s && forall j :: j in s ==> k <= j
  {
    MinKeyExists(s);
    var k :| k in s && forall j :: j in s ==> k <= j;
    k
  }

  /** A non-empty map is a smaller map plus the entry under its least key. */
  lemma SplitOff(m: map<int, Operation>) returns (k: int, rest: map<int, Operation>)
    requires m != map[]
    ensures k in m && k !in rest && rest == m - {k} && m == rest[k := m[k]]
    ensures |rest| < |m|
  {
    assert m.Keys != {};
    k := MinKey(m.Keys);
    rest := m - {k};
    assert rest.Keys == m.Keys - {k};
  }

  /** Sum of the measure over all entries of m. */
  function Total(m: map<int, Operation>, w: Measure): int
    decreases |m|
  {
    if m == map[] then 0
    else
      assert m.Keys != {};
      var k := MinKey(m.Keys);
      assert (m - {k}).Keys == m.Keys - {k};
      Weight(m[k], w) + Total(m - {k}, w)
  }

  /** Any entry, not only the smallest key, can be split off a total. */
  lemma {:induction false} TotalRemove(m: map<int, Operation>, k: int, w: Measure)
    requires k in m
    ensures Total(m, w) == Weight(m[k], w) + Total(m - {k}, w)
    decreases |m|
  {
    assert m.Keys != {};
    var j := MinKey(m.Keys);
    if j != k {
      assert (m - {j}).Keys == m.Keys - {j};
      TotalRemove(m - {j}, k, w);
      var rest := m - {k};
      assert rest.Keys == m.Keys - {k};
      var least := MinKey(rest.Keys);
      assert least in m.Keys && j in rest.Keys;
      assert least == j;
      assert (rest - {j}) == (m - {j}) - {k};
    }
  }

  /** Adding an entry under a fresh key adds its weight. */
  lemma TotalInsert(m: map<int, Operation>, k: int, v: Operation, w: Measure)
    requires k !in m
    ensures Total(m[k := v], w) == Total(m, w) + Weight(v, w)
  {
    assert m[k := v] - {k} == m;
    TotalRemove(m[k := v], k, w);
  }

  /** The selection after a write: the rest of the map, plus the new entry when
      it is selected. */
  lemma WhereWrite(m: map<int, Operation>, k: int, v: Operation, sel: Selector)
    ensures k !in Where(m - {k}, sel)
    ensures Where(m[k := v], sel) ==
      if Selects(sel, v) then Where(m - {k}, sel)[k := v] else Where(m - {k}, sel)
  {
  }

  /** The selection before a write: the rest of the map, plus the old entry when
      there was one and it was selected. */
  lemma WhereSplit(m: map<int, Operation>, k: int, sel: Selector)
    ensures Where(m, sel) ==
      if k in m && Selects(sel, m[k]) then Where(m - {k}, sel)[k := m[k]] else Where(m - {k}, sel)
  {
  }

  /** Replacing or adding the entry under k changes a selective total by the
      new entry's weight minus the old one's, each counted only when selected. */
  lemma TotalAfterWrite(m: map<int, Operation>, k: int, v: Operation, sel: Selector, w: Measure)
    ensures Total(Where(m[k := v], sel), w) ==
      Total(Where(m, sel), w)
      - (if k in m && Selects(sel, m[k]) then Weight(m[k], w) else 0)
      + (if Selects(sel, v) then Weight(v, w) else 0)
  {
    var rest := Where(m - {k}, sel);
    WhereWrite(m, k, v, sel);
    WhereSplit(m, k, sel);
    if Selects(sel, v) {
      TotalInsert(rest, k, v, w);
    }
    if k in m && Selects(sel, m[k]) {
      TotalInsert(rest, k, m[k], w);
    }
  }

  /** Removing the entry under k takes its weight out of every total that
      selected it. */
  lemma TotalAfterDelete(m: map<int, Operation>, k: int, sel: Selector, w: Measure)
    ensures Total(Where(m - {k}, sel), w) ==
      Total(Where(m, sel), w) - (if k in m && Selects(sel, m[k]) then Weight(m[k], w) else 0)
  {
    WhereSplit(m, k, sel);
    if k in m && Selects(sel, m[k]) {
      WhereWrite(m, k, m[k], sel);
      TotalInsert(Where(m - {k}, sel), k, m[k], w);
    }
  }

  /** The signed total is the income amounts minus the amounts of every other
      type. */
  lemma {:induction false} SignedIsIncomeMinusRest(m: map<int, Operation>)
    ensures Total(m, Signed) ==
      Total(Where(m, OfType(Income)), Unsigned) - Total(Where(m, NotOfType(Income)), Unsigned)
    decreases |m|
  {
    if m != map[] {
      var k, rest := SplitOff(m);
      SignedIsIncomeMinusRest(rest);
      TotalRemove(m, k, Signed);
      var o := m[k];
      if o.opType == Income {
        WhereSplit(m, k, OfType(Income));
        WhereSplit(m, k, NotOfType(Income));
        WhereWrite(m, k, o, OfType(Income));
        TotalInsert(Where(rest, OfType(Income)), k, o, Unsigned);
      } else {
        WhereSplit(m, k, OfType(Income));
        WhereSplit(m, k, NotOfType(Income));
        WhereWrite(m, k, o, NotOfType(Income));
        TotalInsert(Where(rest, NotOfType(Income)), k, o, Unsigned);
      }
    }
  }
}
