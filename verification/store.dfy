/** The list updates of the application state (App.tsx): adding a
    transaction, adding and deleting a category. Ids are generated by the
    caller and passed in. */
module Store {
  import opened Types
  import opened Seqs
  import opened Dashboard
  import opened Report

  /** The ids of `ts` are pairwise distinct. */
  predicate UniqueIds(ts: seq<Transaction>)
  {
    forall i, j :: 0 <= i < j < |ts| ==> ts[i].id != ts[j].id
  }

  function WithId(id: string, d: TransactionDraft): Transaction
  {
    Transaction(id, d.date, d.amount, d.category, d.description, d.kind)
  }

  /** `handleAddTransaction`: the new record goes in front, the old list
      follows unchanged. */
  function AddTransaction(ts: seq<Transaction>, id: string, draft: TransactionDraft): (r: seq<Transaction>)
    ensures |r| == |ts| + 1
    ensures r[0].id == id && r[0].date == draft.date && r[0].amount == draft.amount
    ensures r[0].category == draft.category && r[0].description == draft.description
    ensures r[0].kind == draft.kind
    ensures forall i :: 0 <= i < |ts| ==> r[i + 1] == ts[i]
  {
    [WithId(id, draft)] + ts
  }

  /** A fresh id keeps the ids of the list unique. */
  lemma AddTransactionKeepsIdsUnique(ts: seq<Transaction>, id: string, draft: TransactionDraft)
    requires UniqueIds(ts)
    requires forall i :: 0 <= i < |ts| ==> ts[i].id != id
    ensures UniqueIds(AddTransaction(ts, id, draft))
  {
    var r := AddTransaction(ts, id, draft);
    forall i, j | 0 <= i < j < |r| ensures r[i].id != r[j].id {
      if i > 0 {
        assert r[i] == ts[i - 1] && r[j] == ts[j - 1];
      }
    }
  }

  /** The dashboard moves by exactly the new transaction: its amount is added
      to income or to expense, and the balance changes by its signed amount. */
  lemma AddTransactionTotals(ts: seq<Transaction>, id: string, draft: TransactionDraft)
    ensures var before := ComputeStats(ts);
            var after := ComputeStats(AddTransaction(ts, id, draft));
            && after.totalIncome == before.totalIncome + (if draft.kind == Income then draft.amount else 0)
            && after.totalExpense == before.totalExpense + (if draft.kind == Income then 0 else draft.amount)
            && after.totalBalance == before.totalBalance + (if draft.kind == Income then draft.amount else -draft.amount)
  {
    var t := WithId(id, draft);
    StatsAppend([t], ts);
    assert ComputeStats([t]) == Accumulate(Zero, t) by {
      assert [t][..0] == [];
    }
  }

  /** A new transaction dated in the reported month adds one to the count and
      its amount to income or expense; one dated elsewhere changes nothing. */
  lemma AddTransactionReport(ts: seq<Transaction>, id: string, draft: TransactionDraft, month: int, year: int)
    ensures var before := ComputeReport(ts, month, year);
            var after := ComputeReport(AddTransaction(ts, id, draft), month, year);
            var t := WithId(id, draft);
            if InPeriod(month, year, t) then
              && after.count == before.count + 1
              && after.income == before.income + (if draft.kind == Income then draft.amount else 0)
              && after.expense == before.expense + (if draft.kind == Income then 0 else draft.amount)
              && after.net == before.net + (if draft.kind == Income then draft.amount else -draft.amount)
            else after == before
  {
    var t := WithId(id, draft);
    var r := AddTransaction(ts, id, draft);
    assert r == [t] + ts;
    FilterAppend(u => InPeriod(month, year, u), [t], ts);
    var head := PeriodTransactions([t], month, year);
    var rest := PeriodTransactions(ts, month, year);
    assert PeriodTransactions(r, month, year) == head + rest;
    ReportIsPeriodTotals(ts, month, year);
    ReportIsPeriodTotals(r, month, year);
    StatsAppend(head, rest);
    if InPeriod(month, year, t) {
      assert head == [t];
      assert ComputeStats([t]) == Accumulate(Zero, t) by {
        assert [t][..0] == [];
      }
    } else {
      assert head == [];
      assert head + rest == rest;
    }
  }

  /** `handleAddCategory`: an empty name leaves the list alone, any other
      name is appended as a new category. */
  function AddCategory(cats: seq<Category>, id: string, name: string, kind: TransactionType): (r: seq<Category>)
    ensures name == "" ==> r == cats
    ensures name != "" ==> |r| == |cats| + 1 && r[..|cats|] == cats && r[|cats|] == Category(id, name, kind)
  {
    if name == "" then cats else cats + [Category(id, name, kind)]
  }

  /** `handleDeleteCategory`: keep every category whose id differs. */
  function DeleteCategory(cats: seq<Category>, id: string): seq<Category>
  {
    Filter((c: Category) => c.id != id, cats)
  }

  /** Deleting removes every entry with the id and nothing else: the others
      stay, in order and with their multiplicity. */
  lemma DeleteCategorySpec(cats: seq<Category>, id: string)
    ensures forall c: Category :: c in DeleteCategory(cats, id) ==> c.id != id
    ensures IsSubseq(DeleteCategory(cats, id), cats)
    ensures forall c: Category :: c.id != id ==> multiset(DeleteCategory(cats, id))[c] == multiset(cats)[c]
  {
    FilterSpec((c: Category) => c.id != id, cats);
  }

  /** Deleting an absent id changes nothing, and deleting twice is deleting
      once. */
  lemma DeleteCategoryIdempotent(cats: seq<Category>, id: string)
    ensures (forall i :: 0 <= i < |cats| ==> cats[i].id != id) ==> DeleteCategory(cats, id) == cats
    ensures DeleteCategory(DeleteCategory(cats, id), id) == DeleteCategory(cats, id)
  {
    if forall i :: 0 <= i < |cats| ==> cats[i].id != id {
      FilterAll((c: Category) => c.id != id, cats);
    }
    FilterAll((c: Category) => c.id != id, DeleteCategory(cats, id));
  }

  /** Deleting a category just added under a fresh id restores the list. */
  lemma DeleteUndoesAdd(cats: seq<Category>, id: string, name: string, kind: TransactionType)
    requires forall i :: 0 <= i < |cats| ==> cats[i].id != id
    ensures DeleteCategory(AddCategory(cats, id, name, kind), id) == cats
  {
    FilterAll((c: Category) => c.id != id, cats);
    if name != "" {
      FilterAppend((c: Category) => c.id != id, cats, [Category(id, name, kind)]);
    }
  }
}
