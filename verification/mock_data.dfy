/** The sample data the application starts with (constants.ts) and the
    figures the dashboard, report and charts show for it. */
module MockData {
  import opened Types
  import opened Dashboard
  import opened Report
  import opened Charts
  import opened TransactionForm
  import Seqs

  const T1 := Transaction("t1", Date(2024, 5, 1), 2500000, "Pesanan Logo", "Logo Project - Coffee Shop", Income)
  const T2 := Transaction("t2", Date(2024, 5, 2), 500000, "Biaya Iklan", "Instagram Ads Promo Lebaran", Expense)
  const T3 := Transaction("t3", Date(2024, 5, 5), 1500000, "Desain Lainnya", "Desain Menu & Banner", Income)
  const T4 := Transaction("t4", Date(2024, 5, 10), 350000, "Internet", "WiFi Bulanan IndiHome", Expense)
  const T5 := Transaction("t5", Date(2024, 5, 15), 4500000, "Gaji Karyawan", "Gaji Desainer Junior", Expense)
  const T6 := Transaction("t6", Date(2024, 5, 20), 500000, "Konsumsi", "Snack & Kopi Meeting", Expense)
  const T7 := Transaction("t7", Date(2024, 5, 22), 3000000, "Percetakan", "Cetak Brosur Client A", Income)

  const MockTransactions: seq<Transaction> := [T1, T2, T3, T4, T5, T6, T7]

  const DesignCategories: seq<Category> := [
    Category("inc1", "Pesanan Logo", Income),
    Category("inc2", "Desain Lainnya", Income),
    Category("inc3", "Percetakan", Income),
    Category("inc4", "Pemasukan Lainnya", Income),
    Category("exp1", "Biaya Iklan", Expense),
    Category("exp2", "Gaji Karyawan", Expense),
    Category("exp3", "Internet", Expense),
    Category("exp4", "Rumah Tangga", Expense),
    Category("exp5", "Konsumsi", Expense),
    Category("exp6", "Kontrakan", Expense),
    Category("exp7", "Maintenance", Expense)
  ]

  /** Short month names of the `id-ID` locale, by 0-based month. */
  function IndonesianShortMonth(m: int): string
  {
    if m == 0 then "Jan" else if m == 1 then "Feb" else if m == 2 then "Mar"
    else if m == 3 then "Apr" else if m == 4 then "Mei" else if m == 5 then "Jun"
    else if m == 6 then "Jul" else if m == 7 then "Agu" else if m == 8 then "Sep"
    else if m == 9 then "Okt" else if m == 10 then "Nov" else "Des"
  }

  lemma MockDashboard()
    ensures ComputeStats(MockTransactions) == DashboardStats(1150000, 7000000, 5850000)
  {
    var ts := MockTransactions;
    assert ts[..6] == [T1, T2, T3, T4, T5, T6];
    assert ts[..6][..5] == [T1, T2, T3, T4, T5];
    assert ts[..6][..5][..4] == [T1, T2, T3, T4];
    assert ts[..6][..5][..4][..3] == [T1, T2, T3];
    assert ts[..6][..5][..4][..3][..2] == [T1, T2];
    assert ts[..6][..5][..4][..3][..2][..1] == [T1];
    assert [T1][..0] == [];
    assert ComputeStats([T1]) == DashboardStats(2500000, 2500000, 0);
    assert ComputeStats([T1, T2]) == DashboardStats(2000000, 2500000, 500000);
    assert ComputeStats([T1, T2, T3]) == DashboardStats(3500000, 4000000, 500000);
    assert ComputeStats([T1, T2, T3, T4]) == DashboardStats(3150000, 4000000, 850000);
    assert ComputeStats([T1, T2, T3, T4, T5]) == DashboardStats(-1350000, 4000000, 5350000);
    assert ComputeStats([T1, T2, T3, T4, T5, T6]) == DashboardStats(-1850000, 4000000, 5850000);
  }

  lemma MockReport()
    ensures ComputeReport(MockTransactions, 4, 2024) == ReportStats(7000000, 5850000, 1150000, 7)
    ensures ComputeReport(MockTransactions, 5, 2024) == ReportStats(0, 0, 0, 0)
  {
    var ts := MockTransactions;
    Seqs.FilterAll(t => InPeriod(4, 2024, t), ts);
    assert PeriodTransactions(ts, 4, 2024) == ts;
    ReportIsPeriodTotals(ts, 4, 2024);
    MockDashboard();
    Seqs.FilterLength(t => InPeriod(4, 2024, t), ts);
    EmptyPeriod(ts, 5, 2024);
  }

  /** The expenses of the sample data, in list order. */
  lemma MockExpenses()
    ensures Seqs.Filter(IsExpense, MockTransactions) == [T2, T4, T5, T6]
  {
    var ts := MockTransactions;
    assert ts[1..] == [T2, T3, T4, T5, T6, T7];
    assert ts[1..][1..] == [T3, T4, T5, T6, T7];
    assert ts[1..][1..][1..] == [T4, T5, T6, T7];
    assert ts[1..][1..][1..][1..] == [T5, T6, T7];
    assert ts[1..][1..][1..][1..][1..] == [T6, T7];
    assert ts[1..][1..][1..][1..][1..][1..] == [T7];
    assert Seqs.Filter(IsExpense, [T7]) == [];
    assert Seqs.Filter(IsExpense, [T6, T7]) == [T6];
    assert Seqs.Filter(IsExpense, [T5, T6, T7]) == [T5, T6];
    assert Seqs.Filter(IsExpense, [T4, T5, T6, T7]) == [T4, T5, T6];
    assert Seqs.Filter(IsExpense, [T3, T4, T5, T6, T7]) == [T4, T5, T6];
  }

  lemma MockCategoryChart()
    ensures ExpenseCategorySeries(MockTransactions) == [
              CategoryPoint("Biaya Iklan", 500000),
              CategoryPoint("Internet", 350000),
              CategoryPoint("Gaji Karyawan", 4500000),
              CategoryPoint("Konsumsi", 500000)]
  {
    var es := [T2, T4, T5, T6];
    MockExpenses();
    var b1 := [CategoryPoint("Biaya Iklan", 500000)];
    var b2 := b1 + [CategoryPoint("Internet", 350000)];
    var b3 := b2 + [CategoryPoint("Gaji Karyawan", 4500000)];
    assert es[..3] == [T2, T4, T5];
    assert es[..3][..2] == [T2, T4];
    assert es[..3][..2][..1] == [T2];
    assert [T2][..0] == [];
    assert GroupByCategory([T2]) == b1;
    assert CategoryNames(b1) == ["Biaya Iklan"];
    assert GroupByCategory([T2, T4]) == b2;
    assert CategoryNames(b2) == ["Biaya Iklan", "Internet"];
    assert GroupByCategory([T2, T4, T5]) == b3;
    assert CategoryNames(b3) == ["Biaya Iklan", "Internet", "Gaji Karyawan"];
  }

  lemma MockMonthChart()
    ensures IncomeExpenseSeries(IndonesianShortMonth, MockTransactions) == [MonthPoint("Mei", 7000000, 5850000)]
  {
    var ts := MockTransactions;
    var m := IndonesianShortMonth;
    assert ts[..6] == [T1, T2, T3, T4, T5, T6];
    assert ts[..6][..5] == [T1, T2, T3, T4, T5];
    assert ts[..6][..5][..4] == [T1, T2, T3, T4];
    assert ts[..6][..5][..4][..3] == [T1, T2, T3];
    assert ts[..6][..5][..4][..3][..2] == [T1, T2];
    assert ts[..6][..5][..4][..3][..2][..1] == [T1];
    assert [T1][..0] == [];
    assert IncomeExpenseSeries(m, [T1]) == [MonthPoint("Mei", 2500000, 0)];
    assert MonthNames([MonthPoint("Mei", 2500000, 0)]) == ["Mei"];
    AddToMonthContents([MonthPoint("Mei", 2500000, 0)], "Mei", T2);
    assert IncomeExpenseSeries(m, [T1, T2]) == [MonthPoint("Mei", 2500000, 500000)];
    assert MonthNames([MonthPoint("Mei", 2500000, 500000)]) == ["Mei"];
    AddToMonthContents([MonthPoint("Mei", 2500000, 500000)], "Mei", T3);
    assert IncomeExpenseSeries(m, [T1, T2, T3]) == [MonthPoint("Mei", 4000000, 500000)];
    assert MonthNames([MonthPoint("Mei", 4000000, 500000)]) == ["Mei"];
    AddToMonthContents([MonthPoint("Mei", 4000000, 500000)], "Mei", T4);
    assert IncomeExpenseSeries(m, [T1, T2, T3, T4]) == [MonthPoint("Mei", 4000000, 850000)];
    assert MonthNames([MonthPoint("Mei", 4000000, 850000)]) == ["Mei"];
    AddToMonthContents([MonthPoint("Mei", 4000000, 850000)], "Mei", T5);
    assert IncomeExpenseSeries(m, [T1, T2, T3, T4, T5]) == [MonthPoint("Mei", 4000000, 5350000)];
    assert MonthNames([MonthPoint("Mei", 4000000, 5350000)]) == ["Mei"];
    AddToMonthContents([MonthPoint("Mei", 4000000, 5350000)], "Mei", T6);
    assert IncomeExpenseSeries(m, [T1, T2, T3, T4, T5, T6]) == [MonthPoint("Mei", 4000000, 5850000)];
    assert MonthNames([MonthPoint("Mei", 4000000, 5850000)]) == ["Mei"];
    AddToMonthContents([MonthPoint("Mei", 4000000, 5850000)], "Mei", T7);
  }

  lemma MockOffer()
    ensures OfferedCategories(DesignCategories, Income) == DesignCategories[..4]
  {
  }

  /** Two expenses of the same category make one bucket holding their sum. */
  lemma SameCategoryOneBucket()
    ensures ExpenseCategorySeries([
              Transaction("a", Date(2024, 5, 10), 350000, "Internet", "WiFi", Expense),
              Transaction("b", Date(2024, 6, 10), 150000, "Internet", "Kuota", Expense)])
            == [CategoryPoint("Internet", 500000)]
  {
    var a := Transaction("a", Date(2024, 5, 10), 350000, "Internet", "WiFi", Expense);
    var b := Transaction("b", Date(2024, 6, 10), 150000, "Internet", "Kuota", Expense);
    assert [a, b][1..] == [b];
    assert Seqs.Filter(IsExpense, [a, b]) == [a, b];
    assert [a, b][..1] == [a];
    assert [a][..0] == [];
    assert GroupByCategory([a]) == [CategoryPoint("Internet", 350000)];
    assert CategoryNames([CategoryPoint("Internet", 350000)]) == ["Internet"];
  }
}
