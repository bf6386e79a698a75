/** The two chart series (components/Charts.tsx): income and expense per
    month label, and expense per category. Both are `reduce`s that look a
    bucket up by name and either add to it or append a new one. */
module Charts {
  import opened Types
  import opened Seqs
  import opened Dashboard

  // ---------------------------------------------------------------------
  // Income and expense by month label
  // ---------------------------------------------------------------------

  datatype MonthPoint = MonthPoint(name: string, income: int, expense: int)

  /** The bucket key: the short month name of the date, given by
      `monthName` from the 0-based month alone; the year plays no part. */
  function MonthLabel(monthName: int -> string, t: Transaction): string
  {
    monthName(MonthIndex(t.date))
  }

  function MonthLabels(monthName: int -> string, ts: seq<Transaction>): (r: seq<string>)
    ensures |r| == |ts|
  {
    seq(|ts|, i requires 0 <= i < |ts| => MonthLabel(monthName, ts[i]))
  }

  function MonthNames(ps: seq<MonthPoint>): (r: seq<string>)
    ensures |r| == |ps|
  {
    seq(|ps|, i requires 0 <= i < |ps| => ps[i].name)
  }

  /** One reducer step: book `t` into the first bucket named `name`, or
      append a bucket for it. */
  function AddToMonth(acc: seq<MonthPoint>, name: string, t: Transaction): seq<MonthPoint>
  {
    var names := MonthNames(acc);
    if name in names then
      var i := IndexOf(names, name);
      if t.kind == Income then acc[i := acc[i].(income := acc[i].income + t.amount)]
      else acc[i := acc[i].(expense := acc[i].expense + t.amount)]
    else
      acc + [MonthPoint(name, if t.kind == Income then t.amount else 0,
                              if t.kind == Expense then t.amount else 0)]
  }

  /** The data of `IncomeExpenseChart`, folding left to right. */
  function IncomeExpenseSeries(monthName: int -> string, ts: seq<Transaction>): seq<MonthPoint>
    decreases |ts|
  {
    if ts == [] then []
    else
      var t := ts[|ts|-1];
      AddToMonth(IncomeExpenseSeries(monthName, ts[..|ts|-1]), MonthLabel(monthName, t), t)
  }

  /** The income booked under label `name`. */
  function IncomeUnder(monthName: int -> string, ts: seq<Transaction>, name: string): int
  {
    Sum(Mask(IncomeOf, t => MonthLabel(monthName, t) == name), ts)
  }

  /** The expense booked under label `name`. */
  function ExpenseUnder(monthName: int -> string, ts: seq<Transaction>, name: string): int
  {
    Sum(Mask(ExpenseOf, t => MonthLabel(monthName, t) == name), ts)
  }

  function PointIncome(p: MonthPoint): int { p.income }

  function PointExpense(p: MonthPoint): int { p.expense }

  lemma AddToMonthNames(acc: seq<MonthPoint>, name: string, t: Transaction)
    ensures MonthNames(AddToMonth(acc, name, t)) ==
              if name in MonthNames(acc) then MonthNames(acc) else MonthNames(acc) + [name]
  {
  }

  lemma {:induction false} MonthNamesAreFirstSeen(monthName: int -> string, ts: seq<Transaction>)
    ensures MonthNames(IncomeExpenseSeries(monthName, ts)) == FirstSeen(MonthLabels(monthName, ts))
    decreases |ts|
  {
    if ts != [] {
      var p := ts[..|ts|-1];
      var t := ts[|ts|-1];
      MonthNamesAreFirstSeen(monthName, p);
      assert MonthLabels(monthName, ts)[..|ts|-1] == MonthLabels(monthName, p);
      AddToMonthNames(IncomeExpenseSeries(monthName, p), MonthLabel(monthName, t), t);
    }
  }

  /** The buckets have pairwise distinct labels, one for each label that
      occurs, listed in the order in which each label first occurs; so there
      are at most as many buckets as transactions and none for no input. */
  lemma IncomeExpenseSeriesLabels(monthName: int -> string, ts: seq<Transaction>)
    ensures var r := IncomeExpenseSeries(monthName, ts);
            var labels := MonthLabels(monthName, ts);
            && (forall i, j :: 0 <= i < j < |r| ==> r[i].name != r[j].name)
            && (forall name :: name in MonthNames(r) <==> exists k :: 0 <= k < |ts| && MonthLabel(monthName, ts[k]) == name)
            && InFirstOccurrenceOrder(MonthNames(r), labels)
            && |r| <= |ts|
            && (ts == [] ==> r == [])
  {
    var r := IncomeExpenseSeries(monthName, ts);
    var labels := MonthLabels(monthName, ts);
    MonthNamesAreFirstSeen(monthName, ts);
    FirstSeenSpec(labels);
    assert forall i :: 0 <= i < |r| ==> MonthNames(r)[i] == r[i].name;
    forall name ensures name in labels <==> exists k :: 0 <= k < |ts| && MonthLabel(monthName, ts[k]) == name {
      if name in labels {
        var k :| 0 <= k < |labels| && labels[k] == name;
        assert MonthLabel(monthName, ts[k]) == name;
      }
      if exists k :: 0 <= k < |ts| && MonthLabel(monthName, ts[k]) == name {
        var k :| 0 <= k < |ts| && MonthLabel(monthName, ts[k]) == name;
        assert labels[k] == name;
      }
    }
  }

  /** Booking `t` under `name` adds its income and expense to the bucket
      named `name` and to no other bucket. */
  lemma AddToMonthContents(acc: seq<MonthPoint>, name: string, t: Transaction)
    requires Distinct(MonthNames(acc))
    ensures var r := AddToMonth(acc, name, t);
            && |r| == |acc| + (if name in MonthNames(acc) then 0 else 1)
            && (forall i :: 0 <= i < |acc| && acc[i].name != name ==> r[i] == acc[i])
            && (forall i :: 0 <= i < |acc| && acc[i].name == name ==>
                  r[i] == MonthPoint(name, acc[i].income + IncomeOf(t), acc[i].expense + ExpenseOf(t)))
            && (name !in MonthNames(acc) ==> r[|acc|] == MonthPoint(name, IncomeOf(t), ExpenseOf(t)))
  {
    var names := MonthNames(acc);
    var r := AddToMonth(acc, name, t);
    if name in names {
      var k := IndexOf(names, name);
      assert names[k] == acc[k].name;
      forall i | 0 <= i < |acc| && acc[i].name == name
        ensures r[i] == MonthPoint(name, acc[i].income + IncomeOf(t), acc[i].expense + ExpenseOf(t))
      {
        assert names[i] == name;
        assert i == k;
      }
    } else {
      assert forall i :: 0 <= i < |acc| ==> names[i] == acc[i].name;
    }
  }

  lemma UnderSnoc(monthName: int -> string, p: seq<Transaction>, t: Transaction, name: string)
    ensures IncomeUnder(monthName, p + [t], name) ==
              IncomeUnder(monthName, p, name) + (if MonthLabel(monthName, t) == name then IncomeOf(t) else 0)
    ensures ExpenseUnder(monthName, p + [t], name) ==
              ExpenseUnder(monthName, p, name) + (if MonthLabel(monthName, t) == name then ExpenseOf(t) else 0)
  {
    SumSnoc(Mask(IncomeOf, u => MonthLabel(monthName, u) == name), p, t);
    SumSnoc(Mask(ExpenseOf, u => MonthLabel(monthName, u) == name), p, t);
    MaskApply(IncomeOf, u => MonthLabel(monthName, u) == name, t);
    MaskApply(ExpenseOf, u => MonthLabel(monthName, u) == name, t);
  }

  lemma UnderAbsent(monthName: int -> string, ts: seq<Transaction>, name: string)
    requires name !in MonthLabels(monthName, ts)
    ensures IncomeUnder(monthName, ts, name) == 0
    ensures ExpenseUnder(monthName, ts, name) == 0
  {
    forall i | 0 <= i < |ts|
      ensures Mask(IncomeOf, u => MonthLabel(monthName, u) == name)(ts[i]) == 0
      ensures Mask(ExpenseOf, u => MonthLabel(monthName, u) == name)(ts[i]) == 0
    {
      assert MonthLabels(monthName, ts)[i] == MonthLabel(monthName, ts[i]);
      MaskApply(IncomeOf, u => MonthLabel(monthName, u) == name, ts[i]);
      MaskApply(ExpenseOf, u => MonthLabel(monthName, u) == name, ts[i]);
    }
    SumOfZeros(Mask(IncomeOf, u => MonthLabel(monthName, u) == name), ts);
    SumOfZeros(Mask(ExpenseOf, u => MonthLabel(monthName, u) == name), ts);
  }

  /** Each bucket holds the total income and the total expense of exactly
      the transactions whose label is the bucket's name. */
  lemma {:induction false} IncomeExpenseSeriesContents(monthName: int -> string, ts: seq<Transaction>)
    ensures var r := IncomeExpenseSeries(monthName, ts);
            forall i :: 0 <= i < |r| ==>
              && r[i].income == IncomeUnder(monthName, ts, r[i].name)
              && r[i].expense == ExpenseUnder(monthName, ts, r[i].name)
    decreases |ts|
  {
    if ts != [] {
      var p := ts[..|ts|-1];
      var t := ts[|ts|-1];
      var k := MonthLabel(monthName, t);
      var acc := IncomeExpenseSeries(monthName, p);
      var r := IncomeExpenseSeries(monthName, ts);
      assert ts == p + [t];
      IncomeExpenseSeriesContents(monthName, p);
      MonthNamesAreFirstSeen(monthName, p);
      FirstSeenSpec(MonthLabels(monthName, p));
      AddToMonthContents(acc, k, t);
      forall i | 0 <= i < |r|
        ensures r[i].income == IncomeUnder(monthName, ts, r[i].name)
        ensures r[i].expense == ExpenseUnder(monthName, ts, r[i].name)
      {
        UnderSnoc(monthName, p, t, r[i].name);
        if i == |acc| {
          UnderAbsent(monthName, p, k);
        }
      }
    }
  }

  lemma AddToMonthSums(acc: seq<MonthPoint>, name: string, t: Transaction)
    ensures Sum(PointIncome, AddToMonth(acc, name, t)) == Sum(PointIncome, acc) + IncomeOf(t)
    ensures Sum(PointExpense, AddToMonth(acc, name, t)) == Sum(PointExpense, acc) + ExpenseOf(t)
  {
    var names := MonthNames(acc);
    if name in names {
      var i := IndexOf(names, name);
      var v := if t.kind == Income then acc[i].(income := acc[i].income + t.amount)
               else acc[i].(expense := acc[i].expense + t.amount);
      SumUpdate(PointIncome, acc, i, v);
      SumUpdate(PointExpense, acc, i, v);
    } else {
      var v := MonthPoint(name, if t.kind == Income then t.amount else 0,
                                if t.kind == Expense then t.amount else 0);
      SumSnoc(PointIncome, acc, v);
      SumSnoc(PointExpense, acc, v);
    }
  }

  /** No amount is lost or counted twice: the bucket incomes add up to the
      dashboard's total income and the bucket expenses to its total expense. */
  lemma {:induction false} IncomeExpenseSeriesConserves(monthName: int -> string, ts: seq<Transaction>)
    ensures Sum(PointIncome, IncomeExpenseSeries(monthName, ts)) == ComputeStats(ts).totalIncome
    ensures Sum(PointExpense, IncomeExpenseSeries(monthName, ts)) == ComputeStats(ts).totalExpense
    decreases |ts|
  {
    StatsAreSums(ts);
    if ts != [] {
      var p := ts[..|ts|-1];
      var t := ts[|ts|-1];
      assert ts == p + [t];
      IncomeExpenseSeriesConserves(monthName, p);
      StatsAreSums(p);
      AddToMonthSums(IncomeExpenseSeries(monthName, p), MonthLabel(monthName, t), t);
      SumSnoc(IncomeOf, p, t);
      SumSnoc(ExpenseOf, p, t);
    }
  }

  /** The series sees a date only through its month: lists that agree on
      month, amount and type of every transaction, whatever their years,
      give the same buckets. */
  lemma {:induction false} IncomeExpenseSeriesIgnoresYear(monthName: int -> string, a: seq<Transaction>, b: seq<Transaction>)
    requires |a| == |b|
    requires forall i :: 0 <= i < |a| ==>
               MonthIndex(a[i].date) == MonthIndex(b[i].date) && a[i].amount == b[i].amount && a[i].kind == b[i].kind
    ensures IncomeExpenseSeries(monthName, a) == IncomeExpenseSeries(monthName, b)
    decreases |a|
  {
    if a != [] {
      IncomeExpenseSeriesIgnoresYear(monthName, a[..|a|-1], b[..|b|-1]);
    }
  }

  /** Two transactions of the same month land in one bucket even when their
      years differ. */
  lemma SameMonthOneBucket(monthName: int -> string, t1: Transaction, t2: Transaction)
    requires MonthIndex(t1.date) == MonthIndex(t2.date)
    ensures IncomeExpenseSeries(monthName, [t1, t2]) ==
              [MonthPoint(MonthLabel(monthName, t1), IncomeOf(t1) + IncomeOf(t2), ExpenseOf(t1) + ExpenseOf(t2))]
  {
    var key := MonthLabel(monthName, t1);
    assert [t1, t2][..1] == [t1];
    assert [t1][..0] == [];
    var first := IncomeExpenseSeries(monthName, [t1]);
    assert IncomeExpenseSeries(monthName, []) == [];
    assert first == AddToMonth([], key, t1);
    assert MonthNames([]) == [];
    assert first == [MonthPoint(key, IncomeOf(t1), ExpenseOf(t1))];
    assert MonthNames(first) == [key];
  }

  // ---------------------------------------------------------------------
  // Expense by category
  // ---------------------------------------------------------------------

  datatype CategoryPoint = CategoryPoint(name: string, value: int)

  function CategoryNames(ps: seq<CategoryPoint>): seq<string>
  {
    seq(|ps|, i requires 0 <= i < |ps| => ps[i].name)
  }

  function CategoriesOf(ts: seq<Transaction>): (r: seq<string>)
    ensures |r| == |ts|
  {
    seq(|ts|, i requires 0 <= i < |ts| => ts[i].category)
  }

  /** One reducer step: add the amount to the bucket of the transaction's
      category, or append a bucket for it. */
  function AddToCategory(acc: seq<CategoryPoint>, t: Transaction): seq<CategoryPoint>
  {
    var names := CategoryNames(acc);
    if t.category in names then
      var i := IndexOf(names, t.category);
      acc[i := acc[i].(value := acc[i].value + t.amount)]
    else
      acc + [CategoryPoint(t.category, t.amount)]
  }

  function GroupByCategory(es: seq<Transaction>): seq<CategoryPoint>
    decreases |es|
  {
    if es == [] then []
    else AddToCategory(GroupByCategory(es[..|es|-1]), es[|es|-1])
  }

  /** The data of `ExpenseCategoryChart`: expenses only, grouped by the exact
      category string. */
  function ExpenseCategorySeries(ts: seq<Transaction>): seq<CategoryPoint>
  {
    GroupByCategory(Filter(IsExpense, ts))
  }

  predicate InCategory(name: string, t: Transaction)
  {
    t.category == name
  }

  /** The expense booked under category `name`. */
  function ExpenseInCategory(ts: seq<Transaction>, name: string): int
  {
    Sum(Mask(ExpenseOf, t => InCategory(name, t)), ts)
  }

  /** The amount of the transactions of category `name`, whatever their type. */
  function AmountInCategory(es: seq<Transaction>, name: string): int
  {
    Sum(Mask(Amount, t => InCategory(name, t)), es)
  }

  function PointValue(p: CategoryPoint): int { p.value }

  lemma {:induction false} CategoryNamesAreFirstSeen(es: seq<Transaction>)
    ensures CategoryNames(GroupByCategory(es)) == FirstSeen(CategoriesOf(es))
    decreases |es|
  {
    if es != [] {
      var p := es[..|es|-1];
      CategoryNamesAreFirstSeen(p);
      assert CategoriesOf(es)[..|es|-1] == CategoriesOf(p);
    }
  }

  /** The buckets name only categories of `EXPENSE` transactions, each such
      category once, in the order in which it first occurs among them; with
      no expense the series is empty, the "no data" case of the chart. */
  lemma ExpenseCategorySeriesLabels(ts: seq<Transaction>)
    ensures var r := ExpenseCategorySeries(ts);
            var expenseCategories := CategoriesOf(Filter(IsExpense, ts));
            && (forall i, j :: 0 <= i < j < |r| ==> r[i].name != r[j].name)
            && (forall name :: name in CategoryNames(r) <==>
                  exists k :: 0 <= k < |ts| && ts[k].kind == Expense && ts[k].category == name)
            && InFirstOccurrenceOrder(CategoryNames(r), expenseCategories)
            && (r == [] <==> forall k :: 0 <= k < |ts| ==> ts[k].kind != Expense)
  {
    var es := Filter(IsExpense, ts);
    var r := ExpenseCategorySeries(ts);
    var cats := CategoriesOf(es);
    CategoryNamesAreFirstSeen(es);
    FirstSeenSpec(cats);
    FilterSpec(IsExpense, ts);
    FilterLength(IsExpense, ts);
    assert forall i :: 0 <= i < |r| ==> CategoryNames(r)[i] == r[i].name;
    forall name
      ensures name in cats <==> exists k :: 0 <= k < |ts| && ts[k].kind == Expense && ts[k].category == name
    {
      if name in cats {
        var k :| 0 <= k < |cats| && cats[k] == name;
        assert es[k] in multiset(es);
        assert es[k] in ts;
      }
      if exists k :: 0 <= k < |ts| && ts[k].kind == Expense && ts[k].category == name {
        var k :| 0 <= k < |ts| && ts[k].kind == Expense && ts[k].category == name;
        assert ts[k] in multiset(ts);
        assert ts[k] in multiset(es);
        var m :| 0 <= m < |es| && es[m] == ts[k];
        assert cats[m] == name;
      }
    }
    if r == [] {
      assert cats == [];
    }
  }

  lemma AddToCategoryContents(acc: seq<CategoryPoint>, t: Transaction)
    requires Distinct(CategoryNames(acc))
    ensures var r := AddToCategory(acc, t);
            && |r| == |acc| + (if t.category in CategoryNames(acc) then 0 else 1)
            && (forall i :: 0 <= i < |acc| && acc[i].name != t.category ==> r[i] == acc[i])
            && (forall i :: 0 <= i < |acc| && acc[i].name == t.category ==>
                  r[i] == CategoryPoint(t.category, acc[i].value + t.amount))
            && (t.category !in CategoryNames(acc) ==> r[|acc|] == CategoryPoint(t.category, t.amount))
  {
    var names := CategoryNames(acc);
    if t.category in names {
      var k := IndexOf(names, t.category);
      assert names[k] == acc[k].name;
      forall i | 0 <= i < |acc| && acc[i].name == t.category ensures i == k {
        assert names[i] == t.category;
      }
    } else {
      assert forall i :: 0 <= i < |acc| ==> names[i] == acc[i].name;
    }
  }

  /** Within a list of expenses, each bucket sums the amounts of its category. */
  lemma {:induction false} GroupByCategoryContents(es: seq<Transaction>)
    ensures var r := GroupByCategory(es);
            forall i :: 0 <= i < |r| ==> r[i].value == AmountInCategory(es, r[i].name)
    decreases |es|
  {
    if es != [] {
      var p := es[..|es|-1];
      var t := es[|es|-1];
      var acc := GroupByCategory(p);
      var r := GroupByCategory(es);
      assert es == p + [t];
      GroupByCategoryContents(p);
      CategoryNamesAreFirstSeen(p);
      FirstSeenSpec(CategoriesOf(p));
      AddToCategoryContents(acc, t);
      forall i | 0 <= i < |r|
        ensures r[i].value == AmountInCategory(es, r[i].name)
      {
        var name := r[i].name;
        SumSnoc(Mask(Amount, u => InCategory(name, u)), p, t);
        MaskApply(Amount, u => InCategory(name, u), t);
        if i == |acc| {
          forall j | 0 <= j < |p| ensures Mask(Amount, u => InCategory(name, u))(p[j]) == 0 {
            assert CategoriesOf(p)[j] == p[j].category;
            MaskApply(Amount, u => InCategory(name, u), p[j]);
          }
          SumOfZeros(Mask(Amount, u => InCategory(name, u)), p);
        }
      }
    }
  }

  /** Each bucket's value is the total expense of exactly its category. */
  lemma ExpenseCategorySeriesContents(ts: seq<Transaction>)
    ensures var r := ExpenseCategorySeries(ts);
            forall i :: 0 <= i < |r| ==> r[i].value == ExpenseInCategory(ts, r[i].name)
  {
    var es := Filter(IsExpense, ts);
    var r := GroupByCategory(es);
    assert ExpenseCategorySeries(ts) == r;
    GroupByCategoryContents(es);
    assert forall i :: 0 <= i < |GroupByCategory(es)| ==> GroupByCategory(es)[i].value == AmountInCategory(es, GroupByCategory(es)[i].name);
    forall i | 0 <= i < |r| ensures r[i].value == ExpenseInCategory(ts, r[i].name) {
      var name := r[i].name;
      var inCat := Mask(Amount, u => InCategory(name, u));
      SumFilter(inCat, IsExpense, ts);
      forall j | 0 <= j < |ts|
        ensures Mask(inCat, IsExpense)(ts[j]) == Mask(ExpenseOf, u => InCategory(name, u))(ts[j])
      {
        MaskApply(inCat, IsExpense, ts[j]);
        MaskApply(Amount, u => InCategory(name, u), ts[j]);
        MaskApply(ExpenseOf, u => InCategory(name, u), ts[j]);
      }
      SumCongruent(Mask(inCat, IsExpense), Mask(ExpenseOf, u => InCategory(name, u)), ts);
    }
  }

  lemma {:induction false} GroupByCategorySum(es: seq<Transaction>)
    ensures Sum(PointValue, GroupByCategory(es)) == Sum(Amount, es)
    decreases |es|
  {
    if es != [] {
      var p := es[..|es|-1];
      var t := es[|es|-1];
      var acc := GroupByCategory(p);
      assert es == p + [t];
      GroupByCategorySum(p);
      SumSnoc(Amount, p, t);
      var names := CategoryNames(acc);
      if t.category in names {
        var i := IndexOf(names, t.category);
        SumUpdate(PointValue, acc, i, acc[i].(value := acc[i].value + t.amount));
      } else {
        SumSnoc(PointValue, acc, CategoryPoint(t.category, t.amount));
      }
    }
  }

  /** The category values add up to the dashboard's total expense. */
  lemma ExpenseCategorySeriesConserves(ts: seq<Transaction>)
    ensures Sum(PointValue, ExpenseCategorySeries(ts)) == ComputeStats(ts).totalExpense
  {
    GroupByCategorySum(Filter(IsExpense, ts));
    SumFilter(Amount, IsExpense, ts);
    forall j | 0 <= j < |ts| ensures Mask(Amount, IsExpense)(ts[j]) == ExpenseOf(ts[j]) {
      MaskApply(Amount, IsExpense, ts[j]);
    }
    SumCongruent(Mask(Amount, IsExpense), ExpenseOf, ts);
    StatsAreSums(ts);
  }
}
