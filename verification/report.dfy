/** The month report: totals restricted to one calendar month of one year
    (App.tsx, `reportStats`). */
module Report {
  import opened Types
  import opened Seqs
  import opened Dashboard

  datatype ReportStats = ReportStats(income: int, expense: int, net: int, count: int)

  /** The transaction's date lies in the 0-based `month` of `year`. */
  predicate InPeriod(month: int, year: int, t: Transaction)
  {
    MonthIndex(t.date) == month && t.date.year == year
  }

  /** The transactions the report looks at, in list order. */
  function PeriodTransactions(ts: seq<Transaction>, month: int, year: int): seq<Transaction>
  {
    Filter(t => InPeriod(month, year, t), ts)
  }

  /** Filter to the period, then sum the `INCOME` and the `EXPENSE` amounts
      separately. */
  function ComputeReport(ts: seq<Transaction>, month: int, year: int): ReportStats
  {
    var filtered := PeriodTransactions(ts, month, year);
    var income := Sum(Amount, Filter(IsIncome, filtered));
    var expense := Sum(Amount, Filter(IsExpense, filtered));
    ReportStats(income, expense, income - expense, |filtered|)
  }

  /** The report is the dashboard totals of the period's transactions: income,
      expense and net agree with `ComputeStats` on them, and the count is the
      number of transactions dated in the period. Income and expense are also
      the sums over the whole list with everything outside the period
      counted as zero. */
  lemma ReportIsPeriodTotals(ts: seq<Transaction>, month: int, year: int)
    ensures var r := ComputeReport(ts, month, year);
            var stats := ComputeStats(PeriodTransactions(ts, month, year));
            && r.income == stats.totalIncome
            && r.expense == stats.totalExpense
            && r.net == stats.totalBalance
            && r.net == r.income - r.expense
            && r.count == Count(t => InPeriod(month, year, t), ts)
            && r.income == Sum(Mask(IncomeOf, t => InPeriod(month, year, t)), ts)
            && r.expense == Sum(Mask(ExpenseOf, t => InPeriod(month, year, t)), ts)
  {
    var filtered := PeriodTransactions(ts, month, year);
    SumFilter(Amount, IsIncome, filtered);
    SumFilter(Amount, IsExpense, filtered);
    forall i | 0 <= i < |filtered|
      ensures Mask(Amount, IsIncome)(filtered[i]) == IncomeOf(filtered[i])
      ensures Mask(Amount, IsExpense)(filtered[i]) == ExpenseOf(filtered[i])
    {
      MaskApply(Amount, IsIncome, filtered[i]);
      MaskApply(Amount, IsExpense, filtered[i]);
    }
    SumCongruent(Mask(Amount, IsIncome), IncomeOf, filtered);
    SumCongruent(Mask(Amount, IsExpense), ExpenseOf, filtered);
    StatsAreSums(filtered);
    FilterLength(t => InPeriod(month, year, t), ts);
    SumFilter(IncomeOf, t => InPeriod(month, year, t), ts);
    SumFilter(ExpenseOf, t => InPeriod(month, year, t), ts);
  }

  /** The count is zero exactly when no transaction is dated in the period,
      and then every figure of the report is zero. */
  lemma EmptyPeriod(ts: seq<Transaction>, month: int, year: int)
    ensures ComputeReport(ts, month, year).count == 0
            <==> forall i :: 0 <= i < |ts| ==> !InPeriod(month, year, ts[i])
    ensures ComputeReport(ts, month, year).count == 0
            ==> ComputeReport(ts, month, year) == ReportStats(0, 0, 0, 0)
  {
    var filtered := PeriodTransactions(ts, month, year);
    FilterLength(t => InPeriod(month, year, t), ts);
    if |filtered| == 0 {
      assert filtered == [];
    }
  }
}
