/** The invoice line items and their total (App.tsx, `handleAddInvoiceItem`
    and `invoiceTotal`). Number parsing is a parameter: `parse` stands for
    `parseFloat` and yields `NaN` for text that is not a number. */
module Invoice {
  import opened Types
  import opened Seqs

  /** `parseFloat(qtyText) || 1`: both `NaN` and `0` are falsy, so the
      quantity is never zero. */
  function QuantityOrOne(q: Numeric): (n: int)
    ensures n != 0
    ensures q.Num? && q.value != 0 ==> n == q.value
    ensures q == NaN || q == Num(0) ==> n == 1
  {
    match q
    case Num(v) => if v == 0 then 1 else v
    case NaN => 1
  }

  /** `handleAddInvoiceItem`: without a description or a price text nothing
      happens; otherwise one item is appended, priced by parsing the price
      text, with the quantity parsed or defaulted to one. */
  function AddInvoiceItem(items: seq<InvoiceItem>, id: string, description: string,
                          priceText: string, qtyText: string, parse: string -> Numeric): (r: seq<InvoiceItem>)
    ensures description == "" || priceText == "" ==> r == items
    ensures description != "" && priceText != "" ==>
              && |r| == |items| + 1
              && r[..|items|] == items
              && r[|items|].id == id
              && r[|items|].description == description
              && r[|items|].price == parse(priceText)
              && r[|items|].quantity != 0
              && (parse(qtyText).Num? && parse(qtyText).value != 0 ==> r[|items|].quantity == parse(qtyText).value)
              && (parse(qtyText) == NaN || parse(qtyText) == Num(0) ==> r[|items|].quantity == 1)
  {
    if description == "" || priceText == "" then items
    else items + [InvoiceItem(id, description, QuantityOrOne(parse(qtyText)), parse(priceText))]
  }

  /** An empty quantity field parses to `NaN` and so gives quantity one. */
  lemma EmptyQuantityIsOne(items: seq<InvoiceItem>, id: string, description: string,
                           priceText: string, parse: string -> Numeric)
    requires parse("") == NaN
    requires description != "" && priceText != ""
    ensures AddInvoiceItem(items, id, description, priceText, "", parse)[|items|].quantity == 1
  {
  }

  /** JavaScript `+` and `*` on numbers: `NaN` absorbs everything. */
  function Plus(a: Numeric, b: Numeric): Numeric
  {
    if a.Num? && b.Num? then Num(a.value + b.value) else NaN
  }

  function Times(a: Numeric, b: int): Numeric
  {
    if a.Num? then Num(a.value * b) else NaN
  }

  function LineTotal(item: InvoiceItem): Numeric
  {
    Times(item.price, item.quantity)
  }

  /** `items.reduce((sum, item) => sum + item.price * item.quantity, 0)`. */
  function InvoiceTotal(items: seq<InvoiceItem>): Numeric
    decreases |items|
  {
    if items == [] then Num(0)
    else Plus(InvoiceTotal(items[..|items|-1]), LineTotal(items[|items|-1]))
  }

  /** Price times quantity of an item with a numeric price. */
  function LineValue(item: InvoiceItem): int
  {
    if item.price.Num? then item.price.value * item.quantity else 0
  }

  /** The total is a number exactly when every price is, and then it is the
      sum of price times quantity over all items. */
  lemma {:induction false} InvoiceTotalSpec(items: seq<InvoiceItem>)
    ensures InvoiceTotal(items).Num? <==> forall i :: 0 <= i < |items| ==> items[i].price.Num?
    ensures InvoiceTotal(items).Num? ==> InvoiceTotal(items).value == Sum(LineValue, items)
    decreases |items|
  {
    if items != [] {
      var p := items[..|items|-1];
      var x := items[|items|-1];
      assert items == p + [x];
      InvoiceTotalSpec(p);
      SumSnoc(LineValue, p, x);
    }
  }

  /** Adding an item adds its line total to the invoice total, or leaves the
      total alone when the item is refused. */
  lemma InvoiceTotalAfterAdd(items: seq<InvoiceItem>, id: string, description: string,
                             priceText: string, qtyText: string, parse: string -> Numeric)
    ensures var r := AddInvoiceItem(items, id, description, priceText, qtyText, parse);
            InvoiceTotal(r) ==
              if description == "" || priceText == "" then InvoiceTotal(items)
              else Plus(InvoiceTotal(items), Times(parse(priceText), QuantityOrOne(parse(qtyText))))
  {
    var r := AddInvoiceItem(items, id, description, priceText, qtyText, parse);
    if description != "" && priceText != "" {
      assert r[..|r|-1] == items;
    }
  }
}
