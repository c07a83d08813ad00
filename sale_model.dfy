/**
  The sale document: an immutable list of line items, each a snapshot of the
  product's name and the variant's prices at the moment of sale, plus the totals.
 */
module SaleModel {
  import opened Common

  datatype SaleItem = SaleItem(
    productId: Id,
    variantId: Id,
    name: string,
    quantity: int,
    priceAtSale: int,
    priceCostAtSale: int)

  datatype Sale = Sale(
    id: Id,
    items: seq<SaleItem>,
    totalAmount: int,
    totalProfit: int,
    comment: Option<string>,
    createdAt: int)

  /** The schema bounds checked when a sale is saved: a name, a quantity of at least 1, prices of at least 0. */
  predicate ValidItem(it: SaleItem) {
    && it.name != []
    && it.quantity >= 1
    && it.priceAtSale >= 0
    && it.priceCostAtSale >= 0
  }

  predicate ValidSale(s: Sale) {
    forall i :: 0 <= i < |s.items| ==> ValidItem(s.items[i])
  }

  /** Revenue of one line. */
  function Subtotal(it: SaleItem): int {
    it.priceAtSale * it.quantity
  }

  /** Cost of one line. */
  function SubtotalCost(it: SaleItem): int {
    it.priceCostAtSale * it.quantity
  }

  /** Σ priceAtSale × quantity over the items, in order. */
  function SumAmount(items: seq<SaleItem>): int {
    if items == [] then 0 else SumAmount(items[..|items| - 1]) + Subtotal(items[|items| - 1])
  }

  /** Σ (priceAtSale × quantity − priceCostAtSale × quantity) over the items, in order. */
  function SumProfit(items: seq<SaleItem>): int {
    if items == [] then 0
    else SumProfit(items[..|items| - 1]) + (Subtotal(items[|items| - 1]) - SubtotalCost(items[|items| - 1]))
  }

  /** Σ priceCostAtSale × quantity over the items. */
  function SumCost(items: seq<SaleItem>): int {
    if items == [] then 0 else SumCost(items[..|items| - 1]) + SubtotalCost(items[|items| - 1])
  }

  /** Appending a line adds its revenue and its margin to the running totals. */
  lemma SumsSnoc(items: seq<SaleItem>, item: SaleItem)
    ensures SumAmount(items + [item]) == SumAmount(items) + Subtotal(item)
    ensures SumProfit(items + [item]) == SumProfit(items) + (Subtotal(item) - SubtotalCost(item))
  {
    var next := items + [item];
    assert next[..|items|] == items && next[|items|] == item;
  }

  /** The profit of a sale is its revenue minus the cost of the goods sold. */
  lemma {:induction false} SumProfitIsRevenueMinusCost(items: seq<SaleItem>)
    ensures SumProfit(items) == SumAmount(items) - SumCost(items)
  {
    if items != [] {
      SumProfitIsRevenueMinusCost(items[..|items| - 1]);
    }
  }

  /** Selling each line at no less than its cost makes the sale's profit non-negative. */
  lemma {:induction false} SumProfitNonNegative(items: seq<SaleItem>)
    requires forall i :: 0 <= i < |items| ==> items[i].quantity >= 0 && items[i].priceAtSale >= items[i].priceCostAtSale
    ensures SumProfit(items) >= 0
  {
    if items != [] {
      var last := items[|items| - 1];
      SumProfitNonNegative(items[..|items| - 1]);
      assert Subtotal(last) - SubtotalCost(last) == (last.priceAtSale - last.priceCostAtSale) * last.quantity;
    }
  }

  /** A sale whose line items all satisfy the schema has non-negative revenue. */
  lemma {:induction false} SumAmountNonNegative(items: seq<SaleItem>)
    requires forall i :: 0 <= i < |items| ==> ValidItem(items[i])
    ensures SumAmount(items) >= 0
  {
    if items != [] {
      SumAmountNonNegative(items[..|items| - 1]);
    }
  }

  /**
    The record `new Sale({items, totalAmount, totalProfit, comment})` saves:
    totals are the sums over the items, `createdAt` is the save time.
   */
  function NewSale(id: Id, items: seq<SaleItem>, comment: Option<string>, now: int): (s: Sale)
    ensures s.items == items && s.id == id && s.createdAt == now && s.comment == comment
    ensures Consistent(s) <==> ValidSale(s)
    ensures s.totalProfit == s.totalAmount - SumCost(items)
  {
    SumProfitIsRevenueMinusCost(items);
    Sale(id, items, SumAmount(items), SumProfit(items), comment, now)
  }

  /** A ledger entry whose totals agree with its line items and whose items satisfy the schema. */
  predicate Consistent(s: Sale) {
    && s.totalAmount == SumAmount(s.items)
    && s.totalProfit == SumProfit(s.items)
    && ValidSale(s)
  }
}
