/**
  The in-memory stand-in for the MongoDB collections the controllers use:
  products (with embedded variants), categories, colors and the sales ledger.
  Identifiers come from one counter, so every new document gets an id no
  document has had before.
 */
module Database {
  import opened Common
  import opened Text
  import opened ProductModel
  import opened SaleModel
  import opened Inventory

  /** A category document; `isActive` defaults to true. */
  datatype Category = Category(name: string, isActive: bool)

  /** A color document; `name` and `hex` are trimmed on save, `isActive` defaults to true. */
  datatype Color = Color(name: string, hex: Option<string>, isActive: bool)

  /** The unique index on `name`: no two stored products have the same name. */
  ghost predicate UniqueProductNames(ps: map<Id, Product>) {
    forall a, b :: a in ps && b in ps && a != b ==> ps[a].name != ps[b].name
  }

  /** No two stored colors have the same name. */
  ghost predicate UniqueColorNames(cs: map<Id, Color>) {
    forall a, b :: a in cs && b in cs && a != b ==> cs[a].name != cs[b].name
  }

  /**
    No two categories have names that differ only in letter case: the unique
    index together with the case-insensitive checks of create and update.
   */
  ghost predicate CategoryNamesDistinct(cs: map<Id, Category>) {
    forall a, b :: a in cs && b in cs && a != b ==> !SameIgnoringCase(cs[a].name, cs[b].name)
  }

  /** Some product is in category `cid`. */
  predicate CategoryInUse(ps: map<Id, Product>, cid: Id) {
    exists pid :: pid in ps && ps[pid].category == cid
  }

  /** Some variant of some product has color `cid`. */
  predicate ColorInUse(ps: map<Id, Product>, cid: Id) {
    exists pid, i :: pid in ps && 0 <= i < |ps[pid].variants| && ps[pid].variants[i].color == cid
  }

  /** `Sale.findById(id)`: the position of the sale with that id in the ledger. */
  function FindSale(sales: seq<Sale>, id: Id): (r: Option<nat>)
    ensures r.Some? ==> r.value < |sales| && sales[r.value].id == id
    ensures r.Some? ==> forall j :: 0 <= j < r.value ==> sales[j].id != id
    ensures r.None? ==> forall j :: 0 <= j < |sales| ==> sales[j].id != id
  {
    if sales == [] then None
    else if sales[0].id == id then Some(0)
    else match FindSale(sales[1..], id)
      case None => None
      case Some(k) => Some(k + 1)
  }

  class Db {
    var products: map<Id, Product>
    var categories: map<Id, Category>
    var colors: map<Id, Color>
    var sales: seq<Sale>
    var nextId: nat

    ghost predicate Valid()
      reads this
    {
      && (forall pid :: pid in products ==> pid < nextId)
      && (forall cid :: cid in categories ==> cid < nextId)
      && (forall cid :: cid in colors ==> cid < nextId)
      && (forall i :: 0 <= i < |sales| ==> sales[i].id < nextId && Consistent(sales[i]))
      && (forall i, j :: 0 <= i < j < |sales| ==> sales[i].id != sales[j].id)
      && UniqueProductNames(products)
      && CategoryNamesDistinct(categories)
      && UniqueColorNames(colors)
    }

    constructor ()
      ensures Valid()
      ensures products == map[] && categories == map[] && colors == map[] && sales == [] && nextId == 0
    {
      products, categories, colors, sales, nextId := map[], map[], map[], [], 0;
    }

    /** `sale.save()`: the ledger gains the sale under a fresh id. */
    method AppendSale(sale: Sale)
      requires Valid()
      requires sale.id == nextId && Consistent(sale)
      modifies this`sales, this`nextId
      ensures Valid()
      ensures sales == old(sales) + [sale] && nextId == old(nextId) + 1
    {
      sales := sales + [sale];
      nextId := nextId + 1;
    }

    /** `product.save()`: a product whose name no stored product has, under a fresh id. */
    method AddProduct(p: Product) returns (id: Id)
      requires Valid()
      requires forall pid :: pid in products ==> products[pid].name != p.name
      modifies this`products, this`nextId
      ensures Valid()
      ensures id == old(nextId) && nextId == id + 1 && products == old(products)[id := p]
    {
      id := nextId;
      products := products[id := p];
      nextId := nextId + 1;
    }

    /** `findByIdAndUpdate` on a product: its document is replaced by one whose name no other product has. */
    method ReplaceProduct(id: Id, p: Product)
      requires Valid() && id in products
      requires forall pid :: pid in products && pid != id ==> products[pid].name != p.name
      modifies this`products
      ensures Valid()
      ensures products == old(products)[id := p]
    {
      products := products[id := p];
    }

    /** `findByIdAndUpdate` on a category: replaced by one whose name no other category has up to case. */
    method ReplaceCategory(id: Id, c: Category)
      requires Valid() && id in categories
      requires forall cid :: cid in categories && cid != id ==> !SameIgnoringCase(categories[cid].name, c.name)
      modifies this`categories
      ensures Valid()
      ensures categories == old(categories)[id := c]
    {
      categories := categories[id := c];
    }

    /** `findByIdAndUpdate` on a color: replaced by one whose name no other color has. */
    method ReplaceColor(id: Id, c: Color)
      requires Valid() && id in colors
      requires forall cid :: cid in colors && cid != id ==> colors[cid].name != c.name
      modifies this`colors
      ensures Valid()
      ensures colors == old(colors)[id := c]
    {
      colors := colors[id := c];
    }

    /** `category.save()`: a category whose name no stored category has up to case, under a fresh id. */
    method AddCategory(c: Category) returns (id: Id)
      requires Valid()
      requires forall cid :: cid in categories ==> !SameIgnoringCase(categories[cid].name, c.name)
      modifies this`categories, this`nextId
      ensures Valid()
      ensures id == old(nextId) && nextId == id + 1 && categories == old(categories)[id := c]
    {
      id := nextId;
      categories := categories[id := c];
      nextId := nextId + 1;
    }

    /** `color.save()`: a color whose name no stored color has, under a fresh id. */
    method AddColor(c: Color) returns (id: Id)
      requires Valid()
      requires forall cid :: cid in colors ==> colors[cid].name != c.name
      modifies this`colors, this`nextId
      ensures Valid()
      ensures id == old(nextId) && nextId == id + 1 && colors == old(colors)[id := c]
    {
      id := nextId;
      colors := colors[id := c];
      nextId := nextId + 1;
    }

    /** `findByIdAndDelete` on the ledger: the sale at position `i` leaves it, and no sale with its id remains. */
    method RemoveSale(i: nat)
      requires Valid() && i < |sales|
      modifies this`sales
      ensures Valid()
      ensures sales == old(sales)[..i] + old(sales)[i + 1..]
      ensures FindSale(sales, old(sales)[i].id).None?
    {
      sales := sales[..i] + sales[i + 1..];
      assert forall j :: 0 <= j < |sales| ==> sales[j] == old(sales)[if j < i then j else j + 1];
    }

    /** The atomic match-or-skip stock adjustment. */
    method IncAmount(m: Move)
      requires Valid()
      modifies this`products
      ensures Valid()
      ensures products == AddToVariant(old(products), m)
    {
      products := AddToVariant(products, m);
      assert forall pid :: pid in old(products) ==> products[pid].name == old(products)[pid].name;
    }
  }
}
