/** The dashboard totals: one fold over every transaction (App.tsx, `stats`). */
module Dashboard {
  import opened Types
  import opened Seqs

  datatype DashboardStats = DashboardStats(totalBalance: int, totalIncome: int, totalExpense: int)

  const Zero := DashboardStats(0, 0, 0)

  /** The reducer: `INCOME` adds to income and balance, anything else adds
      to expense and takes from the balance. */
  function Accumulate(acc: DashboardStats, t: Transaction): DashboardStats
  {
    if t.kind == Income then
      acc.(totalIncome := acc.totalIncome + t.amount, totalBalance := acc.totalBalance + t.amount)
    else
      acc.(totalExpense := acc.totalExpense + t.amount, totalBalance := acc.totalBalance - t.amount)
  }

  /** `transactions.reduce(Accumulate, {0, 0, 0})`, folding left to right.
      Whatever the list, the balance is income minus expense. */
  function ComputeStats(ts: seq<Transaction>): (r: DashboardStats)
    ensures r.totalBalance == r.totalIncome - r.totalExpense
    decreases |ts|
  {
    if ts == [] then Zero
    else Accumulate(ComputeStats(ts[..|ts|-1]), ts[|ts|-1])
  }

  /** Income is the sum of the `INCOME` amounts, expense the sum of all the
      others, the balance their signed sum; no transactions give all zeros. */
  lemma {:induction false} StatsAreSums(ts: seq<Transaction>)
    ensures ComputeStats(ts).totalIncome == Sum(IncomeOf, ts)
    ensures ComputeStats(ts).totalExpense == Sum(ExpenseOf, ts)
    ensures ComputeStats(ts).totalBalance == Sum(SignedAmount, ts)
    ensures ts == [] ==> ComputeStats(ts) == Zero
    decreases |ts|
  {
    if ts != [] {
      var p := ts[..|ts|-1];
      var t := ts[|ts|-1];
      assert ts == p + [t];
      StatsAreSums(p);
      SumSnoc(IncomeOf, p, t);
      SumSnoc(ExpenseOf, p, t);
      SumSnoc(SignedAmount, p, t);
    }
  }

  /** The totals do not depend on the order of the transactions. */
  lemma StatsPermutationInvariant(a: seq<Transaction>, b: seq<Transaction>)
    requires multiset(a) == multiset(b)
    ensures ComputeStats(a) == ComputeStats(b)
  {
    StatsAreSums(a);
    StatsAreSums(b);
    SumPermutation(IncomeOf, a, b);
    SumPermutation(ExpenseOf, a, b);
  }

  /** The totals of two lists put together are the sums of their totals. */
  lemma StatsAppend(a: seq<Transaction>, b: seq<Transaction>)
    ensures ComputeStats(a + b).totalIncome == ComputeStats(a).totalIncome + ComputeStats(b).totalIncome
    ensures ComputeStats(a + b).totalExpense == ComputeStats(a).totalExpense + ComputeStats(b).totalExpense
    ensures ComputeStats(a + b).totalBalance == ComputeStats(a).totalBalance + ComputeStats(b).totalBalance
  {
    StatsAreSums(a);
    StatsAreSums(b);
    StatsAreSums(a + b);
    SumAppend(IncomeOf, a, b);
    SumAppend(ExpenseOf, a, b);
  }
}
