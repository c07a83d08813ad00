/**
  What `createSale` does to the inventory, stated as a function of the
  inventory before the request: the cart is processed line by line, in order;
  each line re-reads the product, so it sees the decrements of earlier lines;
  the first line that fails stops processing, and the decrements already made
  stay in place.
 */
module SaleProcessing {
  import opened Common
  import opened ProductModel
  import opened SaleModel
  import opened Inventory

  /** One requested line of a cart. */
  datatype CartLine = CartLine(productId: Id, variantId: Id, quantity: int)

  datatype LineOutcome = LineFailed(status: int) | LineDone(item: SaleItem, products: Products)

  /** The debit a line makes: `$inc` by minus its quantity. */
  function Debit(line: CartLine): Move {
    Move(line.productId, line.variantId, -line.quantity)
  }

  /** The credit a stored line item makes when its sale is deleted: `$inc` by plus its quantity. */
  function Credit(item: SaleItem): Move {
    Move(item.productId, item.variantId, item.quantity)
  }

  function Debits(cart: seq<CartLine>): (ms: seq<Move>)
    ensures |ms| == |cart|
  {
    if cart == [] then [] else [Debit(cart[0])] + Debits(cart[1..])
  }

  function Credits(items: seq<SaleItem>): (ms: seq<Move>)
    ensures |ms| == |items|
  {
    if items == [] then [] else [Credit(items[0])] + Credits(items[1..])
  }

  /** The line item recorded for `line`: the product's name and the variant's current prices. */
  function SnapshotOf(ps: Products, line: CartLine, k: nat): SaleItem
    requires line.productId in ps && k < |ps[line.productId].variants|
  {
    var p := ps[line.productId];
    SaleItem(line.productId, line.variantId, p.name, line.quantity, p.variants[k].priceSell, p.variants[k].priceCost)
  }

  /** One iteration of the loop over the cart. */
  function LineStep(ps: Products, line: CartLine): LineOutcome {
    if line.productId !in ps then LineFailed(NOT_FOUND)
    else
      match FindVariant(ps[line.productId].variants, line.variantId)
      case None => LineFailed(NOT_FOUND)
      case Some(k) =>
        if ps[line.productId].variants[k].amount < line.quantity then LineFailed(BAD_REQUEST)
        else LineDone(SnapshotOf(ps, line, k), AddToVariant(ps, Debit(line)))
  }

  /** The inventory after the loop, the processed items, and the status of the line that failed, if one did. */
  datatype Checkout = Checkout(products: Products, items: seq<SaleItem>, failure: Option<int>)

  function RunCart(ps: Products, cart: seq<CartLine>): Checkout
    decreases |cart|
  {
    if cart == [] then Checkout(ps, [], None)
    else
      match LineStep(ps, cart[0])
      case LineFailed(status) => Checkout(ps, [], Some(status))
      case LineDone(item, qs) =>
        var rest := RunCart(qs, cart[1..]);
        rest.(items := [item] + rest.items)
  }

  /** A line that goes through found its product and variant, snapshots them, and debits that variant only. */
  lemma LineStepDone(ps: Products, line: CartLine)
    requires LineStep(ps, line).LineDone?
    ensures line.productId in ps && FindVariant(ps[line.productId].variants, line.variantId).Some?
    ensures var o := LineStep(ps, line);
      && o.item == SnapshotOf(ps, line, FindVariant(ps[line.productId].variants, line.variantId).value)
      && o.products == AddToVariant(ps, Debit(line))
      && SameShape(ps, o.products)
  {
  }

  /** A failing line ends processing where it stands. */
  lemma RunCartStops(ps: Products, cart: seq<CartLine>)
    requires cart != [] && LineStep(ps, cart[0]).LineFailed?
    ensures RunCart(ps, cart) == Checkout(ps, [], Some(LineStep(ps, cart[0]).status))
  {
  }

  /** A line that goes through hands the debited inventory to the rest of the cart. */
  lemma RunCartContinues(ps: Products, cart: seq<CartLine>)
    requires cart != [] && LineStep(ps, cart[0]).LineDone?
    ensures var o := LineStep(ps, cart[0]);
      var rest := RunCart(o.products, cart[1..]);
      RunCart(ps, cart) == rest.(items := [o.item] + rest.items)
  {
  }

  /** `items` holds the snapshot of `cart[i]` taken against `ps`, line by line. */
  ghost predicate Snapshots(ps: Products, cart: seq<CartLine>, items: seq<SaleItem>) {
    && |items| == |cart|
    && forall i :: 0 <= i < |cart| ==>
         && cart[i].productId in ps
         && FindVariant(ps[cart[i].productId].variants, cart[i].variantId).Some?
         && items[i] == SnapshotOf(ps, cart[i], FindVariant(ps[cart[i].productId].variants, cart[i].variantId).value)
  }

  /** Snapshots read only names, ids and prices, which stock changes leave alone. */
  lemma SnapshotIgnoresAmounts(ps: Products, qs: Products, line: CartLine)
    requires SameShape(ps, qs) && line.productId in ps
    ensures FindVariant(ps[line.productId].variants, line.variantId) == FindVariant(qs[line.productId].variants, line.variantId)
    ensures forall k :: 0 <= k < |ps[line.productId].variants| ==> SnapshotOf(ps, line, k) == SnapshotOf(qs, line, k)
  {
    FindVariantIgnoresAmounts(ps[line.productId], qs[line.productId], line.variantId);
  }

  /** A snapshot taken against `ps` can go in front of snapshots taken against a store of the same shape. */
  lemma SnapshotsCons(ps: Products, qs: Products, cart: seq<CartLine>, items: seq<SaleItem>)
    requires SameShape(ps, qs)
    requires cart != [] && |items| == |cart|
    requires cart[0].productId in ps && FindVariant(ps[cart[0].productId].variants, cart[0].variantId).Some?
    requires items[0] == SnapshotOf(ps, cart[0], FindVariant(ps[cart[0].productId].variants, cart[0].variantId).value)
    requires Snapshots(qs, cart[1..], items[1..])
    ensures Snapshots(ps, cart, items)
  {
    forall i | 1 <= i < |cart|
      ensures cart[i].productId in ps
      ensures FindVariant(ps[cart[i].productId].variants, cart[i].variantId).Some?
      ensures items[i] == SnapshotOf(ps, cart[i], FindVariant(ps[cart[i].productId].variants, cart[i].variantId).value)
    {
      assert cart[1..][i - 1] == cart[i] && items[1..][i - 1] == items[i];
      SnapshotIgnoresAmounts(ps, qs, cart[i]);
    }
  }

  /** A cart that goes through leaves the old inventory with every line's quantity debited from its variant. */
  lemma {:induction false} RunCartDebits(ps: Products, cart: seq<CartLine>)
    requires RunCart(ps, cart).failure.None?
    ensures RunCart(ps, cart).products == ApplyMoves(ps, Debits(cart))
    decreases |cart|
  {
    if cart != [] {
      var qs := LineStep(ps, cart[0]).products;
      assert qs == AddToVariant(ps, Debit(cart[0]));
      RunCartDebits(qs, cart[1..]);
      assert Debits(cart)[0] == Debit(cart[0]) && Debits(cart)[1..] == Debits(cart[1..]);
    }
  }

  /**
    A cart that goes through: every line found its product and variant, the
    recorded items are snapshots of the catalog as it was before the sale
    (names and prices do not change along the way), and the inventory is the
    old one with every line's quantity debited from its variant.
   */
  lemma {:induction false} RunCartSucceeds(ps: Products, cart: seq<CartLine>)
    requires RunCart(ps, cart).failure.None?
    ensures Snapshots(ps, cart, RunCart(ps, cart).items)
    ensures RunCart(ps, cart).products == ApplyMoves(ps, Debits(cart))
    decreases |cart|
  {
    RunCartDebits(ps, cart);
    if cart != [] {
      var o := LineStep(ps, cart[0]);
      var qs := o.products;
      var rest := RunCart(qs, cart[1..]);
      RunCartSucceeds(qs, cart[1..]);
      RunCartContinues(ps, cart);
      LineStepDone(ps, cart[0]);
      var items := RunCart(ps, cart).items;
      assert items[0] == o.item && items[1..] == rest.items;
      SnapshotsCons(ps, qs, cart, items);
    }
  }

  /** Every line of the cart is turned into exactly one line item for the same product, variant and quantity. */
  lemma RunCartItemsMatchCart(ps: Products, cart: seq<CartLine>)
    requires RunCart(ps, cart).failure.None?
    ensures var items := RunCart(ps, cart).items;
      && |items| == |cart|
      && forall i :: 0 <= i < |cart| ==>
           items[i].productId == cart[i].productId && items[i].variantId == cart[i].variantId
           && items[i].quantity == cart[i].quantity
  {
    RunCartSucceeds(ps, cart);
  }

  /** `qs` differs from `ps` only in stock, and every counter that changed is now at least 0. */
  ghost predicate NeverOverdrawn(ps: Products, qs: Products) {
    && SameShape(ps, qs)
    && forall pid, k :: pid in ps && 0 <= k < |ps[pid].variants| ==>
         qs[pid].variants[k].amount >= 0 || qs[pid].variants[k].amount == ps[pid].variants[k].amount
  }

  /** A line only ever takes stock that is there: the variant it debits ends at 0 or more. */
  lemma LineStepNeverOverdraws(ps: Products, line: CartLine)
    requires LineStep(ps, line).LineDone?
    ensures NeverOverdrawn(ps, LineStep(ps, line).products)
  {
    var qs := LineStep(ps, line).products;
    forall pid, k | pid in ps && 0 <= k < |ps[pid].variants|
      ensures qs[pid].variants[k].amount >= 0 || qs[pid].variants[k].amount == ps[pid].variants[k].amount
    {
      AddToVariantAt(ps, Debit(line), pid, k);
    }
  }

  /**
    Processing a cart, whether it goes through or stops part-way, never drives
    a variant's stock below zero: every counter it touched ends at 0 or more.
   */
  lemma {:induction false} RunCartNeverOverdraws(ps: Products, cart: seq<CartLine>)
    ensures NeverOverdrawn(ps, RunCart(ps, cart).products)
    decreases |cart|
  {
    if cart != [] && LineStep(ps, cart[0]).LineDone? {
      var qs := LineStep(ps, cart[0]).products;
      LineStepNeverOverdraws(ps, cart[0]);
      RunCartNeverOverdraws(qs, cart[1..]);
    }
  }

  ghost predicate AllStockNonNegative(ps: Products) {
    forall pid :: pid in ps ==> StockNonNegative(ps[pid].variants)
  }

  /** In particular, a store with no negative stock has none after a sale, successful or not. */
  lemma RunCartKeepsStockNonNegative(ps: Products, cart: seq<CartLine>)
    requires AllStockNonNegative(ps)
    ensures AllStockNonNegative(RunCart(ps, cart).products)
  {
    RunCartNeverOverdraws(ps, cart);
  }

  /** Cart processing stopped at line `j`: the lines before it went through and line `j` failed with the final status. */
  ghost predicate FailsAt(ps: Products, cart: seq<CartLine>, j: nat) {
    && j < |cart|
    && var pre := RunCart(ps, cart[..j]);
    && pre.failure.None?
    && LineStep(pre.products, cart[j]).LineFailed?
    && RunCart(ps, cart).failure == Some(LineStep(pre.products, cart[j]).status)
    && RunCart(ps, cart).products == pre.products
  }

  /** A failing cart stops at a bad line, with a not-found or insufficient-stock status. */
  lemma {:induction false} RunCartFailure(ps: Products, cart: seq<CartLine>)
    requires RunCart(ps, cart).failure.Some?
    ensures exists j: nat :: FailsAt(ps, cart, j)
    ensures RunCart(ps, cart).failure.value == NOT_FOUND || RunCart(ps, cart).failure.value == BAD_REQUEST
    decreases |cart|
  {
    var o := LineStep(ps, cart[0]);
    if o.LineFailed? {
      assert cart[..0] == [];
      RunCartStops(ps, cart);
      assert FailsAt(ps, cart, 0);
    } else {
      RunCartContinues(ps, cart);
      RunCartFailure(o.products, cart[1..]);
      var j: nat :| FailsAt(o.products, cart[1..], j);
      FailsAtShift(ps, cart, j);
    }
  }

  /** A line that goes through in front of a cart that stops at `j` makes a cart that stops at `j + 1`. */
  lemma FailsAtShift(ps: Products, cart: seq<CartLine>, j: nat)
    requires cart != [] && LineStep(ps, cart[0]).LineDone?
    requires FailsAt(LineStep(ps, cart[0]).products, cart[1..], j)
    ensures FailsAt(ps, cart, j + 1)
  {
    var qs := LineStep(ps, cart[0]).products;
    var tail := cart[1..];
    RunCartContinues(ps, cart);
    var pre := cart[..j + 1];
    assert pre[1..] == tail[..j];
    assert pre[0] == cart[0];
    RunCartContinues(ps, pre);
    assert tail[j] == cart[j + 1];
  }

  /** When a cart stops at line `j`, the debits of the lines before it stay in the inventory; none is rolled back. */
  lemma FailureKeepsEarlierDebits(ps: Products, cart: seq<CartLine>, j: nat)
    requires FailsAt(ps, cart, j)
    ensures RunCart(ps, cart).products == ApplyMoves(ps, Debits(cart[..j]))
  {
    RunCartDebits(ps, cart[..j]);
  }

  /**
    A line with a quantity of 0 or less passes the stock check, and its `$inc`
    adds stock; the sale record then fails the schema's minimum quantity of 1,
    so the request ends without a record while the stock stays inflated.
   */
  lemma NonPositiveQuantityInflatesStock()
    ensures var ps := map[0 := Product("Shirt", 1, [Variant(2, 3, 4, 100, 150)], 5, true, Image("u", "p"))];
      var c := RunCart(ps, [CartLine(0, 2, -3)]);
      && c.failure.None?
      && c.products[0].variants[0].amount == 7
      && !ValidSale(NewSale(0, c.items, None, 0))
  {
    var ps := map[0 := Product("Shirt", 1, [Variant(2, 3, 4, 100, 150)], 5, true, Image("u", "p"))];
    var line := CartLine(0, 2, -3);
    assert FindVariant(ps[0].variants, 2) == Some(0);
    RunCartContinues(ps, [line]);
    var c := RunCart(ps, [line]);
    assert c.items[0].quantity == -3;
  }

  /** The credits of the recorded items cancel the debits of the cart on every variant. */
  lemma {:induction false} CreditsCancelDebits(ps: Products, cart: seq<CartLine>, items: seq<SaleItem>, pid: Id, k: nat)
    requires |items| == |cart|
    requires forall i :: 0 <= i < |cart| ==>
      items[i].productId == cart[i].productId && items[i].variantId == cart[i].variantId && items[i].quantity == cart[i].quantity
    ensures Net(ps, Credits(items), pid, k) == -Net(ps, Debits(cart), pid, k)
    decreases |cart|
  {
    if cart != [] {
      CreditsCancelDebits(ps, cart[1..], items[1..], pid, k);
    }
  }

  /**
    Deleting a sale right after creating it restores every variant's stock:
    replaying the recorded items as increments undoes the cart's decrements.
   */
  lemma CreateThenDeleteRestoresStock(ps: Products, cart: seq<CartLine>)
    requires RunCart(ps, cart).failure.None?
    ensures ApplyMoves(RunCart(ps, cart).products, Credits(RunCart(ps, cart).items)) == ps
  {
    var c := RunCart(ps, cart);
    RunCartSucceeds(ps, cart);
    RunCartItemsMatchCart(ps, cart);
    var ms := Debits(cart) + Credits(c.items);
    ApplyMovesAppend(ps, Debits(cart), Credits(c.items));
    forall pid, k | pid in ps && 0 <= k < |ps[pid].variants|
      ensures Net(ps, ms, pid, k) == 0
    {
      NetAppend(ps, Debits(cart), Credits(c.items), pid, k);
      CreditsCancelDebits(ps, cart, c.items, pid, k);
    }
    NetZeroRestores(ps, ms);
  }

  /**
    A line that goes through lowers its product's potential profit (the
    `totalProfit` virtual) by exactly the profit recorded for the line.
   */
  lemma LineStepMovesProfit(ps: Products, line: CartLine)
    requires LineStep(ps, line).LineDone?
    ensures var o := LineStep(ps, line);
      TotalProfit(o.products[line.productId].variants)
        == TotalProfit(ps[line.productId].variants) - (Subtotal(o.item) - SubtotalCost(o.item))
  {
    var p := ps[line.productId];
    var k := FindVariant(p.variants, line.variantId).value;
    var v := p.variants[k];
    TotalProfitAdjust(p.variants, k, -line.quantity);
    assert (v.priceSell - v.priceCost) * -line.quantity
        == -(v.priceSell * line.quantity - v.priceCost * line.quantity);
  }
}
