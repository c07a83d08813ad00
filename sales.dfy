/**
  The sales controller: `createSale` and `deleteSale` change the inventory and
  the ledger in place; `getSales` is the report of module SalesReport over the
  ledger.
 */
module SalesController {
  import opened Common
  import opened ProductModel
  import opened SaleModel
  import opened Inventory
  import opened SaleProcessing
  import opened Database

  /** The checkout state the loop has reached, with the items processed so far put in front. */
  function Resume(processed: seq<SaleItem>, c: Checkout): Checkout {
    c.(items := processed + c.items)
  }

  lemma ResumeStep(processed: seq<SaleItem>, item: SaleItem, rest: Checkout)
    ensures Resume(processed + [item], rest) == Resume(processed, rest.(items := [item] + rest.items))
  {
    assert (processed + [item]) + rest.items == processed + ([item] + rest.items);
  }

  /** A line that goes through moves the loop state one line on without changing where it leads. */
  lemma ResumeNext(processed: seq<SaleItem>, ps: Products, rest: seq<CartLine>)
    requires rest != [] && LineStep(ps, rest[0]).LineDone?
    ensures var o := LineStep(ps, rest[0]);
      Resume(processed + [o.item], RunCart(o.products, rest[1..])) == Resume(processed, RunCart(ps, rest))
  {
    var o := LineStep(ps, rest[0]);
    RunCartContinues(ps, rest);
    ResumeStep(processed, o.item, RunCart(o.products, rest[1..]));
  }

  /** A failing line ends the loop with the inventory it found and its status. */
  lemma ResumeStops(processed: seq<SaleItem>, ps: Products, rest: seq<CartLine>)
    requires rest != [] && LineStep(ps, rest[0]).LineFailed?
    ensures Resume(processed, RunCart(ps, rest)) == Checkout(ps, processed, Some(LineStep(ps, rest[0]).status))
  {
    RunCartStops(ps, rest);
  }

  /** An exhausted cart ends the loop with the items processed and no failure. */
  lemma ResumeDone(processed: seq<SaleItem>, ps: Products, rest: seq<CartLine>)
    requires rest == []
    ensures Resume(processed, RunCart(ps, rest)) == Checkout(ps, processed, None)
  {
    assert processed + [] == processed;
  }

  /**
    One pass of the loop of `createSale`: look up the product, then the
    variant, refuse the line when stock is short, otherwise snapshot the line
    item and debit the variant at once.
   */
  method TakeLine(db: Db, line: CartLine) returns (outcome: LineOutcome)
    requires db.Valid()
    modifies db`products
    ensures db.Valid()
    ensures outcome == LineStep(old(db.products), line)
    ensures db.products == if outcome.LineDone? then outcome.products else old(db.products)
  {
    if line.productId !in db.products {
      return LineFailed(NOT_FOUND);
    }
    var product := db.products[line.productId];
    var found := FindVariant(product.variants, line.variantId);
    if found.None? {
      return LineFailed(NOT_FOUND);
    }
    var variant := product.variants[found.value];
    if variant.amount < line.quantity {
      return LineFailed(BAD_REQUEST);
    }
    var item := SaleItem(line.productId, line.variantId, product.name, line.quantity, variant.priceSell, variant.priceCost);
    db.IncAmount(Debit(line));
    outcome := LineDone(item, db.products);
  }

  /**
    One pass of the loop of `createSale` together with its bookkeeping: on a
    failing line the loop's outcome is fixed; on a passing line the item is
    appended, the running totals stay the sums over the items, and the rest of
    the cart still leads where the whole cart led.
   */
  method CartStep(db: Db, cart: seq<CartLine>, i: nat, items: seq<SaleItem>, totalAmount: int, totalProfit: int)
    returns (failure: Option<int>, items': seq<SaleItem>, totalAmount': int, totalProfit': int)
    requires db.Valid() && i < |cart|
    requires totalAmount == SumAmount(items) && totalProfit == SumProfit(items)
    modifies db`products
    ensures db.Valid()
    ensures failure.Some? ==>
      Resume(items, RunCart(old(db.products), cart[i..])) == Checkout(db.products, items, failure)
    ensures failure.None? ==>
      Resume(items', RunCart(db.products, cart[i + 1..])) == Resume(items, RunCart(old(db.products), cart[i..]))
    ensures totalAmount' == SumAmount(items') && totalProfit' == SumProfit(items')
  {
    assert cart[i..][0] == cart[i] && cart[i..][1..] == cart[i + 1..];
    var outcome := TakeLine(db, cart[i]);
    if outcome.LineFailed? {
      ResumeStops(items, old(db.products), cart[i..]);
      return Some(outcome.status), items, totalAmount, totalProfit;
    }
    var item := outcome.item;
    var subtotal := item.priceAtSale * item.quantity;
    var subtotalCost := item.priceCostAtSale * item.quantity;
    SumsSnoc(items, item);
    ResumeNext(items, old(db.products), cart[i..]);
    failure, items', totalAmount', totalProfit' := None, items + [item], totalAmount + subtotal, totalProfit + (subtotal - subtotalCost);
  }

  /**
    The loop of `createSale`: walk the cart in order, one line at a time, so
    every line sees the debits of the lines before it. The inventory ends as
    `RunCart` says, the processed items are its items, and the running totals
    are the sums over them.
   */
  method ProcessCart(db: Db, cart: seq<CartLine>) returns (failure: Option<int>, items: seq<SaleItem>, totalAmount: int, totalProfit: int)
    requires db.Valid()
    modifies db`products
    ensures db.Valid()
    ensures var c := RunCart(old(db.products), cart);
      db.products == c.products && failure == c.failure && (failure.None? ==> items == c.items)
    ensures totalAmount == SumAmount(items) && totalProfit == SumProfit(items)
  {
    totalAmount, totalProfit := 0, 0;
    items := [];
    var i := 0;
    while i < |cart|
      invariant 0 <= i <= |cart|
      invariant db.Valid()
      invariant Resume(items, RunCart(db.products, cart[i..])) == RunCart(old(db.products), cart)
      invariant totalAmount == SumAmount(items) && totalProfit == SumProfit(items)
    {
      failure, items, totalAmount, totalProfit := CartStep(db, cart, i, items, totalAmount, totalProfit);
      if failure.Some? {
        return;
      }
      i := i + 1;
    }
    ResumeDone(items, db.products, cart[i..]);
    failure := None;
  }

  /**
    `createSale`: the inventory ends as `RunCart` says, whether or not the
    sale goes through. Only a cart that passes every line, and whose line
    items then satisfy the sale schema, is appended to the ledger, with
    totals equal to the sums over its items.
   */
  method CreateSale(db: Db, cart: seq<CartLine>, comment: Option<string>, now: int) returns (status: int)
    requires db.Valid()
    modifies db`products, db`sales, db`nextId
    ensures db.Valid()
    ensures var c := RunCart(old(db.products), cart);
      && db.products == c.products
      && (c.failure.Some? ==> status == c.failure.value && db.sales == old(db.sales))
      && (c.failure.None? ==>
            var sale := NewSale(old(db.nextId), c.items, comment, now);
            if ValidSale(sale) then status == CREATED && db.sales == old(db.sales) + [sale]
            else status == BAD_REQUEST && db.sales == old(db.sales))
    ensures db.nextId == old(db.nextId) + (if status == CREATED then 1 else 0)
  {
    ghost var ps := db.products;
    var failure, items, totalAmount, totalProfit := ProcessCart(db, cart);
    if failure.Some? {
      RunCartFailure(ps, cart);
      return failure.value;
    }
    var sale := Sale(db.nextId, items, totalAmount, totalProfit, comment, now);
    if !ValidSale(sale) {
      return BAD_REQUEST;
    }
    db.AppendSale(sale);
    status := CREATED;
  }

  /**
    `deleteSale`: an unknown id is 404 and changes nothing; otherwise every
    stored line item is added back to its variant (skipped when the product
    or variant is gone) and the sale leaves the ledger, so it cannot be
    reversed twice.
   */
  method DeleteSale(db: Db, id: Id) returns (status: int)
    requires db.Valid()
    modifies db`products, db`sales
    ensures db.Valid()
    ensures match FindSale(old(db.sales), id)
      case None => status == NOT_FOUND && db.products == old(db.products) && db.sales == old(db.sales)
      case Some(i) =>
        && status == OK
        && db.products == ApplyMoves(old(db.products), Credits(old(db.sales)[i].items))
        && db.sales == old(db.sales)[..i] + old(db.sales)[i + 1..]
        && FindSale(db.sales, id).None?
  {
    var found := FindSale(db.sales, id);
    if found.None? {
      return NOT_FOUND;
    }
    var sale := db.sales[found.value];
    var j := 0;
    while j < |sale.items|
      invariant 0 <= j <= |sale.items|
      invariant db.Valid() && db.sales == old(db.sales)
      invariant ApplyMoves(db.products, Credits(sale.items[j..])) == ApplyMoves(old(db.products), Credits(sale.items))
    {
      var item := sale.items[j];
      assert sale.items[j..][0] == item && sale.items[j..][1..] == sale.items[j + 1..];
      db.IncAmount(Credit(item));
      j := j + 1;
    }
    db.RemoveSale(found.value);
    status := OK;
  }
}
