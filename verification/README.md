# Bookkeeping dashboard: the derived-statistics layer in Dafny

This project models the computations behind a single-page bookkeeping
dashboard for a small design agency. The dashboard keeps a flat list of
income and expense transactions (whole Rupiah) and derives everything it
shows from that list:

- the dashboard totals (balance, income, expense);
- the report for one calendar month of one year;
- the income/expense chart series, bucketed by short month label;
- the expense-by-category chart series;
- the search filter of the transaction list.

It also models the small list updates around them: adding a transaction,
adding and deleting a category, adding an invoice item, and the invoice
total. For the "add transaction" form it models the submitted record, the
categories offered for the selected type, and the type switch.

Everything is written as pure functions over immutable datatypes. The
accumulating folds (`reduce`) of the dashboard totals, the invoice total and
the two chart series (`Dashboard.ComputeStats`, `Invoice.InvoiceTotal`,
`Charts.IncomeExpenseSeries`, `Charts.GroupByCategory`) become recursive
functions over the list prefix, so they fold left to right as the source
does. The two plain sums of the report (App.tsx:102-103) are written with
`Seqs.Sum`, which adds from the right; over whole numbers addition is
associative, so the order makes no difference to the result. The properties are stated
against independent reference definitions: sums of a per-transaction weight
(`Seqs.Sum`), order-preserving filters with a multiset characterisation
(`Seqs.Filter`, `Seqs.IsSubseq`), and first-occurrence order
(`Seqs.IndexOf`, `Seqs.InFirstOccurrenceOrder`).

Modules, one per concern:

| module | file | models |
|---|---|---|
| `Seqs` | seqs.dfy | generic sums, filters, subsequences, first-seen order |
| `Text` | text.dfy | lower-casing and `String.prototype.includes` |
| `Types` | types.dfy | the records of types.ts |
| `Dashboard` | dashboard.dfy | the `stats` fold |
| `Report` | report.dfy | `reportStats` |
| `Search` | search.dfy | `filteredTransactions` |
| `Store` | store.dfy | `handleAddTransaction`, `handleAddCategory`, `handleDeleteCategory` |
| `Invoice` | invoice.dfy | `handleAddInvoiceItem`, `invoiceTotal` |
| `Charts` | charts.dfy | the data of `IncomeExpenseChart` and `ExpenseCategoryChart` |
| `TransactionForm` | transaction_form.dfy | `handleSubmit`, `filteredCategories`, the type buttons |
| `MockData` | mock_data.dfy | `MOCK_TRANSACTIONS`, `DESIGN_CATEGORIES` and their figures |

Modelling decisions:

- A date is an already-parsed `(year, month, day)`. `month` is 1-based as
  in the ISO string, and `Types.MonthIndex` is `getMonth()`.
- The chart's month label is the parameter `monthName: int -> string`,
  applied to the 0-based month alone. The bucket key is therefore the label
  string. As in the source, the same month of different years falls into
  one bucket (`Charts.SameMonthOneBucket`, `Charts.IncomeExpenseSeriesIgnoresYear`).
- A transaction's type is `Income | Expense`. The dashboard fold books every
  non-`INCOME` transaction as an expense. The report and the new chart
  bucket test for `EXPENSE` explicitly. With two types these agree, and
  `Types.ExpenseOf` follows the dashboard's `else` branch.
- Amounts are unbounded integers, and no sign check is made: types.ts
  declares `amount: number`, and the form's numeric input
  (components/TransactionModal.tsx:79-86) has no `min`.
- `parseFloat` in the invoice is the parameter `parse: string -> Numeric`.
  `Numeric` is a whole number or `NaN`, and `NaN` absorbs `+` and `*` as
  in JavaScript. So an unparsable price makes the invoice total `NaN`.
- Ids are parameters; freshness is a precondition only where a property
  needs it.

## Model

| member | source | states |
|---|---|---|
| Dashboard.ComputeStats | App.tsx:64-78 | for every transaction list the folded balance equals total income minus total expense |
| Dashboard.StatsAreSums | App.tsx:65-77 | total income is the sum of the INCOME amounts, total expense the sum of all other amounts, balance their signed sum; the empty list gives {0, 0, 0} |
| Dashboard.StatsPermutationInvariant | App.tsx:64-78 | any two lists that are permutations of each other give identical totals |
| Dashboard.StatsAppend | App.tsx:65-77 | the totals of a concatenation are the sums of the totals of its parts |
| Report.ReportIsPeriodTotals | App.tsx:96-111 | report income/expense/net are the dashboard totals of exactly the transactions dated in (month, year); net is income minus expense; count is the number of such transactions; income and expense equal sums over the whole list with out-of-period transactions weighted zero |
| Report.EmptyPeriod | App.tsx:96-111 | count is zero if and only if no transaction is dated in the period, and then the whole report is zero |
| Search.MatchesSearchSpec | App.tsx:156-159 | a transaction matches exactly when the lower-cased term occurs at some position of its lower-cased description or lower-cased category |
| Search.SearchKeepsExactlyMatches | App.tsx:156-159 | the result is an order-preserving subsequence of the list, holding every matching transaction with its full multiplicity and no other |
| Search.EmptyTermKeepsAll | App.tsx:156-159 | an empty search term returns the list unchanged |
| Search.SearchIgnoresCase | App.tsx:156-159 | terms that lower-case alike give the same result; a term equal to any casing of a transaction's description or category keeps that transaction |
| Search.SearchLowerTerm | App.tsx:156-159 | lower-casing the term before searching gives the same result as searching with the term as typed, since the search lower-cases it anyway |
| Text.IncludesSpec | App.tsx:157-158 | `includes` holds exactly when the substring occurs at some index of the string |
| Store.AddTransaction | App.tsx:80-86 | the list grows by one, the new record with the given id and fields is first, and the old records follow unchanged and in order |
| Store.AddTransactionKeepsIdsUnique | App.tsx:80-86 | with a fresh id, a list with unique ids keeps unique ids |
| Store.AddTransactionTotals | App.tsx:80-86 | after adding, the dashboard income or expense grows by exactly the new amount and the balance by its signed amount |
| Store.AddTransactionReport | App.tsx:80-86 | a new transaction dated in the reported month adds one to the count and its amount to income or expense; one dated elsewhere leaves the report unchanged |
| Store.AddCategory | App.tsx:114-123 | an empty name leaves the category list unchanged; otherwise exactly one category {id, name, type} is appended after the unchanged old list |
| Store.DeleteCategorySpec | App.tsx:125-127 | deleting removes every category with the id and only those, keeping the others in order with their multiplicity |
| Store.DeleteCategoryIdempotent | App.tsx:125-127 | deleting an id no category has leaves the list unchanged, and deleting the same id twice is the same as once |
| Store.DeleteUndoesAdd | App.tsx:114-127 | deleting a category just added under a fresh id restores the original list |
| Invoice.QuantityOrOne | App.tsx:136 | the quantity is never zero: a parsed non-zero quantity is kept, and NaN or 0 become 1 |
| Invoice.AddInvoiceItem | App.tsx:130-142 | an empty description or price text leaves the items unchanged; otherwise one item with the given id and description, the parsed price and a non-zero quantity (the parsed one, or 1 for NaN/0) is appended |
| Invoice.EmptyQuantityIsOne | App.tsx:136 | an empty quantity field, which parses to NaN, gives quantity 1 |
| Invoice.InvoiceTotalSpec | App.tsx:144 | the invoice total is a number exactly when every price is, and then it equals the sum of price times quantity over all items |
| Invoice.InvoiceTotalAfterAdd | App.tsx:130-144 | adding an item adds its line total (price times quantity) to the invoice total, and a refused item leaves the total unchanged |
| Charts.AddToMonthContents | components/Charts.tsx:27-38 | one step adds the transaction's income and expense to the bucket with its label and changes no other bucket, or appends a new bucket for a new label |
| Charts.IncomeExpenseSeriesLabels | components/Charts.tsx:25-40 | the month buckets have pairwise distinct labels, exactly the labels that occur, in order of first occurrence; at most one bucket per transaction and none for an empty list |
| Charts.IncomeExpenseSeriesContents | components/Charts.tsx:29-37 | each month bucket's income is the sum of INCOME amounts with its label, and its expense the sum of the other amounts with its label |
| Charts.IncomeExpenseSeriesConserves | components/Charts.tsx:25-40 | bucket incomes sum to the dashboard's total income and bucket expenses to its total expense |
| Charts.IncomeExpenseSeriesIgnoresYear | components/Charts.tsx:26-27 | lists that agree on month, amount and type of each transaction give the same buckets, whatever their years |
| Charts.SameMonthOneBucket | components/Charts.tsx:26-31 | two transactions of the same month, whatever their years, make a single bucket holding both amounts |
| Charts.AddToCategoryContents | components/Charts.tsx:69-74 | one step adds the amount to the bucket of the transaction's category and changes no other bucket, or appends a new bucket for a new category |
| Charts.ExpenseCategorySeriesLabels | components/Charts.tsx:66-80 | category buckets name exactly the categories of EXPENSE transactions, each once, in order of first occurrence among the expenses; the series is empty exactly when there is no expense |
| Charts.ExpenseCategorySeriesContents | components/Charts.tsx:68-76 | each category bucket's value is the sum of the EXPENSE amounts with exactly that category string |
| Charts.ExpenseCategorySeriesConserves | components/Charts.tsx:66-76 | the category values sum to the dashboard's total expense |
| TransactionForm.Submit | components/TransactionModal.tsx:21-29 | the submitted draft carries the form's date, amount, description and type; its category is the chosen one when non-empty and 'Uncategorized' otherwise, so it is never empty |
| TransactionForm.OfferedCategoriesSpec | components/TransactionModal.tsx:37 | every offered category has the selected type, and the offer is exactly the categories of that type, in their original order |
| TransactionForm.SelectType | components/TransactionModal.tsx:53-74 | switching the type sets it and clears the chosen category, leaving the other fields alone |
| TransactionForm.SubmitAfterSwitch | components/TransactionModal.tsx:21-29 | calling `handleSubmit` straight after a type switch books the new type under 'Uncategorized' |
| TransactionForm.PickedCategoryMatchesType | components/TransactionModal.tsx:102-112 | a category picked from the offer yields a draft whose category names a known category of the draft's own type |
| TransactionForm.OfferAfterAddCategory | components/TransactionModal.tsx:37 | a category added with a non-empty name is offered last for its own type, and the offer for the other type is unchanged |
| MockData.MockDashboard | constants.ts:20-77 | the sample transactions total 7,000,000 income, 5,850,000 expense and a 1,150,000 balance |
| MockData.MockReport | constants.ts:20-77 | the May 2024 report of the sample data is {7,000,000, 5,850,000, 1,150,000, 7}, and June 2024 is all zeros |
| MockData.MockCategoryChart | constants.ts:20-77 | the sample expenses give the buckets Biaya Iklan 500,000, Internet 350,000, Gaji Karyawan 4,500,000, Konsumsi 500,000, in that order |
| MockData.MockMonthChart | constants.ts:20-77 | with Indonesian short month names, the sample data gives the single bucket Mei with 7,000,000 income and 5,850,000 expense |
| MockData.MockOffer | constants.ts:3-18 | the INCOME offer of the sample categories is its first four entries |
| MockData.SameCategoryOneBucket | components/Charts.tsx:66-76 | two Internet expenses of 350,000 and 150,000 make one bucket of 500,000 |

## Left out

- Date parsing. `new Date('YYYY-MM-DD')` reads the string as UTC midnight, and `getMonth()` and `getFullYear()` read local time (App.tsx:98-99, components/Charts.tsx:26). West of UTC, a transaction on the 1st therefore falls into the previous month. The model takes the month and year as written.
- The locale month name (`toLocaleString('id-ID', { month: 'short' })`) is a library call. It is the parameter `monthName`, and `MockData.IndonesianShortMonth` is only an example table.
- Text.Lower: lower-cases ASCII letters only. JavaScript's `toLowerCase` is full Unicode case mapping.
- Floating point. Amounts, prices and quantities are whole numbers. Fractions, `Infinity` and the precision loss of doubles are not modelled.
- HTML form validation: the `required` select (components/TransactionModal.tsx:102-108) blocks submission while its empty placeholder is selected, so the `'Uncategorized'` fallback of components/TransactionModal.tsx:26 is not reached through the form. The model describes `handleSubmit` as written.
- The form amount is `parseFloat` of a `required` numeric input. It is taken as an already-parsed whole number, so a `NaN` amount does not reach the transaction list.
- Id generation with `Math.random` (App.tsx:83, 117, 133) and the random invoice number. Ids are parameters, and freshness is a lemma precondition where needed.
- The input resets after each action (App.tsx:122, App.tsx:139-141, components/TransactionModal.tsx:30-34) and the modal's open/close. They clear UI fields and have no effect on the data.
- The initial form state (type EXPENSE, empty category, today's date from the clock).
- services/geminiService.ts, `handleGetAiAdvice` and `handleGenerateBrief`: calls to a hosted language model.
- All rendering: JSX, the chart library, StatCard and `toLocaleString` formatting, tab navigation, `window.print`, and `useMemo` caching.
