/** The records of the bookkeeping dashboard (types.ts). Amounts are whole
    Rupiah; ids are opaque strings supplied by the caller. */
module Types {

  datatype TransactionType = Income | Expense

  /** A calendar date as written in an ISO `YYYY-MM-DD` string: `month` is
      1-based, as in the string. */
  datatype Date = Date(year: int, month: int, day: int)

  /** `Date.getMonth()`: the 0-based month. */
  function MonthIndex(d: Date): int
  {
    d.month - 1
  }

  datatype Transaction = Transaction(
    id: string,
    date: Date,
    amount: int,
    category: string,
    description: string,
    kind: TransactionType)

  /** A transaction before an id is assigned (`Omit<Transaction, 'id'>`). */
  datatype TransactionDraft = TransactionDraft(
    date: Date,
    amount: int,
    category: string,
    description: string,
    kind: TransactionType)

  datatype Category = Category(id: string, name: string, kind: TransactionType)

  /** A JavaScript number as far as this model needs one: a whole value, or
      the `NaN` that `parseFloat` yields for text that is not a number. */
  datatype Numeric = Num(value: int) | NaN

  datatype InvoiceItem = InvoiceItem(
    id: string,
    description: string,
    quantity: int,
    price: Numeric)

  predicate IsIncome(t: Transaction) { t.kind == Income }

  predicate IsExpense(t: Transaction) { t.kind == Expense }

  function Amount(t: Transaction): int { t.amount }

  /** What a transaction adds to the income side: its amount when it is
      `INCOME`, nothing otherwise. */
  function IncomeOf(t: Transaction): int
  {
    if t.kind == Income then t.amount else 0
  }

  /** What a transaction adds to the expense side. The dashboard fold books
      every transaction that is not `INCOME` as an expense. */
  function ExpenseOf(t: Transaction): int
  {
    if t.kind == Income then 0 else t.amount
  }

  /** The signed effect on the balance. */
  function SignedAmount(t: Transaction): int
  {
    if t.kind == Income then t.amount else -t.amount
  }
}
