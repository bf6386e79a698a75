/** The "add transaction" form (components/TransactionModal.tsx): the record
    it submits, the categories it offers for the selected type, and the
    type switch. */
module TransactionForm {
  import opened Types
  import opened Seqs
  import opened Store

  const Uncategorized: string := "Uncategorized"

  /** The form fields. The amount is the number the required numeric input
      holds; the date is already parsed. */
  datatype Form = Form(amount: int, description: string, kind: TransactionType, category: string, date: Date)

  /** `handleSubmit`: the draft passed to `onSave`. */
  function Submit(form: Form): (d: TransactionDraft)
    ensures d.date == form.date && d.amount == form.amount
    ensures d.description == form.description && d.kind == form.kind
    ensures d.category != ""
    ensures form.category != "" ==> d.category == form.category
    ensures form.category == "" ==> d.category == Uncategorized
  {
    TransactionDraft(form.date, form.amount,
                     if form.category == "" then Uncategorized else form.category,
                     form.description, form.kind)
  }

  /** `filteredCategories`: the categories offered for the selected type. */
  function OfferedCategories(cats: seq<Category>, kind: TransactionType): seq<Category>
  {
    Filter((c: Category) => c.kind == kind, cats)
  }

  /** Every offered category has the selected type, and the offer is exactly
      the categories of that type, in their original order. */
  lemma OfferedCategoriesSpec(cats: seq<Category>, kind: TransactionType)
    ensures forall c :: c in OfferedCategories(cats, kind) ==> c.kind == kind
    ensures IsSubseq(OfferedCategories(cats, kind), cats)
    ensures forall c: Category :: multiset(OfferedCategories(cats, kind))[c] == if c.kind == kind then multiset(cats)[c] else 0
  {
    FilterSpec((c: Category) => c.kind == kind, cats);
  }

  /** The type buttons: select the type and clear the chosen category. */
  function SelectType(form: Form, kind: TransactionType): (f: Form)
    ensures f.kind == kind && f.category == ""
    ensures f.amount == form.amount && f.description == form.description && f.date == form.date
  {
    form.(kind := kind, category := "")
  }

  /** Calling `handleSubmit` right after a type switch books the transaction
      under the new type and as `Uncategorized`. Through the rendered form
      this path is blocked by the `required` category select. */
  lemma SubmitAfterSwitch(form: Form, kind: TransactionType)
    ensures Submit(SelectType(form, kind)).kind == kind
    ensures Submit(SelectType(form, kind)).category == Uncategorized
  {
  }

  /** A category picked from the offer yields a draft whose category names a
      known category of the draft's own type. */
  lemma PickedCategoryMatchesType(cats: seq<Category>, form: Form, picked: Category)
    requires picked in OfferedCategories(cats, form.kind)
    requires form.category == picked.name && picked.name != ""
    ensures exists c :: c in cats && c.name == Submit(form).category && c.kind == Submit(form).kind
  {
    OfferedCategoriesSpec(cats, form.kind);
    assert multiset(OfferedCategories(cats, form.kind))[picked] > 0;
    assert picked in multiset(cats);
  }

  /** A category added with a non-empty name is offered last for its own
      type and leaves the offer for the other type unchanged. */
  lemma OfferAfterAddCategory(cats: seq<Category>, id: string, name: string, kind: TransactionType, shown: TransactionType)
    ensures OfferedCategories(AddCategory(cats, id, name, kind), shown) ==
              if name != "" && kind == shown then OfferedCategories(cats, shown) + [Category(id, name, kind)]
              else OfferedCategories(cats, shown)
  {
    if name != "" {
      FilterAppend((c: Category) => c.kind == shown, cats, [Category(id, name, kind)]);
    }
  }
}
