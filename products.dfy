/**
  The product controller: create, update and delete products, switch them on
  and off, and adjust the stock of one color variant. Every operation is a
  guarded lookup followed by a change to the product store.
 */
module ProductsController {
  import opened Common
  import opened Text
  import opened ProductModel
  import opened Database

  /**
    The case-insensitive `^name$` lookup: some stored product other than
    `except` has this name up to letter case.
   */
  predicate NameClash(ps: map<Id, Product>, name: string, except: Option<Id>) {
    exists pid :: pid in ps && Some(pid) != except && SameIgnoringCase(ps[pid].name, name)
  }

  /** What the unique index on `name` refuses: another product already stores exactly this name. */
  predicate NameStored(ps: map<Id, Product>, name: string, except: Option<Id>) {
    exists pid :: pid in ps && Some(pid) != except && ps[pid].name == name
  }

  /**
    `createProducts`: no image, a name taken up to case, a product the schema
    validators refuse, or a trimmed name already stored is 400 and changes
    nothing; otherwise the product is stored under a fresh id with the
    schema defaults.
   */
  method CreateProducts(db: Db, image: Option<Image>, name: string, category: Id, variants: seq<Variant>, minStockAlert: Option<int>)
    returns (status: int)
    requires db.Valid()
    modifies db`products, db`nextId
    ensures db.Valid()
    ensures status == CREATED || status == BAD_REQUEST
    ensures status == CREATED <==>
      && image.Some?
      && !NameClash(old(db.products), name, None)
      && ValidProduct(NewProduct(name, category, variants, minStockAlert, image.value))
      && !NameStored(old(db.products), Trim(name), None)
    ensures status == CREATED ==>
      db.products == old(db.products)[old(db.nextId) := NewProduct(name, category, variants, minStockAlert, image.value)]
    ensures status == BAD_REQUEST ==> db.products == old(db.products)
    ensures db.nextId == old(db.nextId) + (if status == CREATED then 1 else 0)
  {
    if image.None? {
      return BAD_REQUEST;
    }
    if NameClash(db.products, name, None) {
      return BAD_REQUEST;
    }
    var product := NewProduct(name, category, variants, minStockAlert, image.value);
    if !ValidProduct(product) || NameStored(db.products, product.name, None) {
      return BAD_REQUEST;
    }
    var _ := db.AddProduct(product);
    status := CREATED;
  }

  /** Once a product is stored, the same create request again is refused: its trimmed name is taken. */
  lemma RepeatedCreateRefused(ps: map<Id, Product>, id: Id, name: string, category: Id, variants: seq<Variant>, minStockAlert: Option<int>, image: Image)
    ensures NameStored(ps[id := NewProduct(name, category, variants, minStockAlert, image)], Trim(name), None)
  {
    var qs := ps[id := NewProduct(name, category, variants, minStockAlert, image)];
    assert qs[id].name == Trim(name);
  }

  /**
    `updateProduct`: a name taken up to case by another product is 400; the
    update validators (a non-empty trimmed name, non-negative amounts in the
    supplied variants) then give 400; a missing id 404; a trimmed name stored
    by another product 400. Otherwise name, category and threshold are set,
    and variants and image only when supplied.
   */
  method UpdateProduct(db: Db, id: Id, name: string, category: Id, minStockAlert: int, variants: Option<seq<Variant>>, image: Option<Image>)
    returns (status: int)
    requires db.Valid()
    modifies db`products
    ensures db.Valid()
    ensures status == OK || status == BAD_REQUEST || status == NOT_FOUND
    ensures var valid := Trim(name) != [] && (variants.Some? ==> StockNonNegative(variants.value));
      && (status == NOT_FOUND <==> !NameClash(old(db.products), name, Some(id)) && valid && id !in old(db.products))
      && (status == OK <==>
            && !NameClash(old(db.products), name, Some(id)) && valid && id in old(db.products)
            && !NameStored(old(db.products), Trim(name), Some(id)))
    ensures status == OK ==>
      var p := old(db.products)[id];
      db.products == old(db.products)[id := p.(
        name := Trim(name),
        category := category,
        minStockAlert := minStockAlert,
        variants := if variants.Some? then variants.value else p.variants,
        image := if image.Some? then image.value else p.image)]
    ensures status != OK ==> db.products == old(db.products)
  {
    if NameClash(db.products, name, Some(id)) {
      return BAD_REQUEST;
    }
    var trimmed := Trim(name);
    if trimmed == [] || (variants.Some? && !StockNonNegative(variants.value)) {
      return BAD_REQUEST;
    }
    if id !in db.products {
      return NOT_FOUND;
    }
    if NameStored(db.products, trimmed, Some(id)) {
      return BAD_REQUEST;
    }
    var p := db.products[id];
    db.ReplaceProduct(id, p.(
      name := trimmed,
      category := category,
      minStockAlert := minStockAlert,
      variants := if variants.Some? then variants.value else p.variants,
      image := if image.Some? then image.value else p.image));
    status := OK;
  }

  /** `deleteProduct`: a missing id is 400 (not 404); otherwise the product is removed. */
  method DeleteProduct(db: Db, id: Id) returns (status: int)
    requires db.Valid()
    modifies db`products
    ensures db.Valid()
    ensures status == OK <==> id in old(db.products)
    ensures status == OK ==> db.products == old(db.products) - {id}
    ensures status != OK ==> status == BAD_REQUEST && db.products == old(db.products)
  {
    if id !in db.products {
      return BAD_REQUEST;
    }
    db.products := db.products - {id};
    status := OK;
  }

  /** `deactivateProduct`: a missing id is 404; otherwise the product is marked inactive, so a second call changes nothing. */
  method DeactivateProduct(db: Db, id: Id) returns (status: int)
    requires db.Valid()
    modifies db`products
    ensures db.Valid()
    ensures status == OK <==> id in old(db.products)
    ensures status == OK ==> db.products == old(db.products)[id := old(db.products)[id].(isActive := false)]
    ensures status == OK && !old(db.products)[id].isActive ==> db.products == old(db.products)
    ensures status != OK ==> status == NOT_FOUND && db.products == old(db.products)
  {
    if id !in db.products {
      return NOT_FOUND;
    }
    db.products := db.products[id := db.products[id].(isActive := false)];
    status := OK;
  }

  /** `activateProduct`: a missing id is 404; otherwise the product is marked active, so a second call changes nothing. */
  method ActivateProduct(db: Db, id: Id) returns (status: int)
    requires db.Valid()
    modifies db`products
    ensures db.Valid()
    ensures status == OK <==> id in old(db.products)
    ensures status == OK ==> db.products == old(db.products)[id := old(db.products)[id].(isActive := true)]
    ensures status == OK && old(db.products)[id].isActive ==> db.products == old(db.products)
    ensures status != OK ==> status == NOT_FOUND && db.products == old(db.products)
  {
    if id !in db.products {
      return NOT_FOUND;
    }
    db.products := db.products[id := db.products[id].(isActive := true)];
    status := OK;
  }

  /**
    The `$inc` of `updateVariantStock`: `quantity`, of either sign, added to
    the first variant of product `id` with this color; nothing when the
    product or such a variant is missing.
   */
  function AdjustColorStock(ps: map<Id, Product>, id: Id, color: Id, quantity: int): (r: Option<map<Id, Product>>)
    ensures r.None? <==> id !in ps || FindColorVariant(ps[id].variants, color).None?
    ensures r.Some? ==>
      && r.value.Keys == ps.Keys
      && (forall pid :: pid in ps && pid != id ==> r.value[pid] == ps[pid])
      && SameExceptAmounts(ps[id], r.value[id])
      && var k := FindColorVariant(ps[id].variants, color).value;
         && r.value[id].variants[k].amount == ps[id].variants[k].amount + quantity
         && (forall j :: 0 <= j < |ps[id].variants| && j != k ==> r.value[id].variants[j] == ps[id].variants[j])
         && TotalProfit(r.value[id].variants)
            == TotalProfit(ps[id].variants) + (ps[id].variants[k].priceSell - ps[id].variants[k].priceCost) * quantity
  {
    if id !in ps then None
    else
      var vs := ps[id].variants;
      match FindColorVariant(vs, color)
      case None => None
      case Some(k) =>
        TotalProfitAdjust(vs, k, quantity);
        Some(ps[id := ps[id].(variants := vs[k := vs[k].(amount := vs[k].amount + quantity)])])
  }

  /** Adjusting by `quantity` and then by `-quantity` gives back the original store. */
  lemma AdjustColorStockUndo(ps: map<Id, Product>, id: Id, color: Id, quantity: int)
    requires AdjustColorStock(ps, id, color, quantity).Some?
    ensures var qs := AdjustColorStock(ps, id, color, quantity).value;
      AdjustColorStock(qs, id, color, -quantity) == Some(ps)
  {
    var qs := AdjustColorStock(ps, id, color, quantity).value;
    FindColorVariantIgnoresAmounts(ps[id], qs[id], color);
    var rs := AdjustColorStock(qs, id, color, -quantity).value;
    var k := FindColorVariant(ps[id].variants, color).value;
    assert rs[id].variants == ps[id].variants;
    assert rs[id] == ps[id];
    assert rs == ps;
  }

  /** Nothing bounds the result: taking more than is on hand leaves a negative amount. */
  lemma AdjustColorStockCanGoNegative()
    ensures var ps := map[0 := Product("Shirt", 1, [Variant(2, 3, 2, 100, 150)], 5, true, Image("u", "p"))];
      var r := AdjustColorStock(ps, 0, 3, -5);
      r.Some? && r.value[0].variants[0].amount == -3
  {
    var ps := map[0 := Product("Shirt", 1, [Variant(2, 3, 2, 100, 150)], 5, true, Image("u", "p"))];
    assert FindColorVariant(ps[0].variants, 3) == Some(0);
  }

  /**
    `updateVariantStock`: 404 with nothing changed when the product or a
    variant of that color is missing; otherwise the adjustment above.
   */
  method UpdateVariantStock(db: Db, id: Id, color: Id, quantity: int) returns (status: int)
    requires db.Valid()
    modifies db`products
    ensures db.Valid()
    ensures match AdjustColorStock(old(db.products), id, color, quantity)
      case None => status == NOT_FOUND && db.products == old(db.products)
      case Some(qs) => status == OK && db.products == qs
  {
    var r := AdjustColorStock(db.products, id, color, quantity);
    if r.None? {
      return NOT_FOUND;
    }
    db.products := r.value;
    status := OK;
  }
}
