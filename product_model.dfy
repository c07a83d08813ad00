/**
  The product document: a named catalog entry in one category, owning an
  ordered list of color variants, each with its own stock counter and prices.
  Money is in integer cents.
 */
module ProductModel {
  import opened Common
  import opened Text

  datatype Variant = Variant(id: Id, color: Id, amount: int, priceCost: int, priceSell: int)

  datatype Image = Image(url: string, publicId: string)

  datatype Product = Product(
    name: string,
    category: Id,
    variants: seq<Variant>,
    minStockAlert: int,
    isActive: bool,
    image: Image)

  const DEFAULT_MIN_STOCK_ALERT: int := 5

  /**
    The product a save stores for a new request: the trimmed name, the
    default alert threshold when none is given, and active.
   */
  function NewProduct(name: string, category: Id, variants: seq<Variant>, minStockAlert: Option<int>, image: Image): (p: Product)
    ensures p.name == Trim(name) && p.category == category && p.variants == variants && p.image == image
    ensures p.isActive
    ensures minStockAlert.None? ==> p.minStockAlert == 5
    ensures minStockAlert.Some? ==> p.minStockAlert == minStockAlert.value
  {
    Product(Trim(name), category, variants, minStockAlert.GetOr(DEFAULT_MIN_STOCK_ALERT), true, image)
  }

  /** The schema validators a save runs on a variant list: every `amount` is at least 0. */
  predicate StockNonNegative(vs: seq<Variant>) {
    forall i :: 0 <= i < |vs| ==> vs[i].amount >= 0
  }

  /**
    The validators a save runs on a whole product: a non-empty (trimmed) name
    and non-negative amounts. Prices have no bound and no sell-over-cost relation.
   */
  predicate ValidProduct(p: Product) {
    p.name != [] && StockNonNegative(p.variants)
  }

  /** The `totalProfit` virtual: what the stock on hand would earn if sold at current prices. */
  function TotalProfit(vs: seq<Variant>): int {
    if vs == [] then 0
    else (vs[0].priceSell - vs[0].priceCost) * vs[0].amount + TotalProfit(vs[1..])
  }

  lemma {:induction false} TotalProfitAppend(a: seq<Variant>, b: seq<Variant>)
    ensures TotalProfit(a + b) == TotalProfit(a) + TotalProfit(b)
  {
    if a == [] {
      assert a + b == b;
    } else {
      assert (a + b)[1..] == a[1..] + b;
      TotalProfitAppend(a[1..], b);
    }
  }

  /** With every margin and every amount non-negative, the potential profit is non-negative. */
  lemma {:induction false} TotalProfitNonNegative(vs: seq<Variant>)
    requires StockNonNegative(vs)
    requires forall i :: 0 <= i < |vs| ==> vs[i].priceSell >= vs[i].priceCost
    ensures TotalProfit(vs) >= 0
  {
    if vs != [] {
      TotalProfitNonNegative(vs[1..]);
    }
  }

  /** Changing one variant's amount by `delta` changes the potential profit by that variant's margin times `delta`. */
  lemma {:induction false} TotalProfitAdjust(vs: seq<Variant>, k: nat, delta: int)
    requires k < |vs|
    ensures TotalProfit(vs[k := vs[k].(amount := vs[k].amount + delta)])
         == TotalProfit(vs) + (vs[k].priceSell - vs[k].priceCost) * delta
  {
    var ws := vs[k := vs[k].(amount := vs[k].amount + delta)];
    var m := vs[k].priceSell - vs[k].priceCost;
    if k == 0 {
      assert ws[1..] == vs[1..];
      assert m * (vs[0].amount + delta) == m * vs[0].amount + m * delta;
    } else {
      assert ws[1..] == vs[1..][k - 1 := vs[k].(amount := vs[k].amount + delta)];
      TotalProfitAdjust(vs[1..], k - 1, delta);
    }
  }

  /** `variants.find(v => v._id == vid)`: the position of the first variant with that id. */
  function FindVariant(vs: seq<Variant>, vid: Id): (r: Option<nat>)
    ensures r.Some? ==> r.value < |vs| && vs[r.value].id == vid
    ensures r.Some? ==> forall j :: 0 <= j < r.value ==> vs[j].id != vid
    ensures r.None? ==> forall j :: 0 <= j < |vs| ==> vs[j].id != vid
  {
    if vs == [] then None
    else if vs[0].id == vid then Some(0)
    else match FindVariant(vs[1..], vid)
      case None => None
      case Some(k) => Some(k + 1)
  }

  /** The position of the first variant of the given color: the element `'variants.$'` designates after matching `'variants.color'`. */
  function FindColorVariant(vs: seq<Variant>, color: Id): (r: Option<nat>)
    ensures r.Some? ==> r.value < |vs| && vs[r.value].color == color
    ensures r.Some? ==> forall j :: 0 <= j < r.value ==> vs[j].color != color
    ensures r.None? ==> forall j :: 0 <= j < |vs| ==> vs[j].color != color
  {
    if vs == [] then None
    else if vs[0].color == color then Some(0)
    else match FindColorVariant(vs[1..], color)
      case None => None
      case Some(k) => Some(k + 1)
  }

  /** `p` and `q` are the same product except possibly for the stock counters of its variants. */
  predicate SameExceptAmounts(p: Product, q: Product) {
    && q == p.(variants := q.variants)
    && |q.variants| == |p.variants|
    && forall i :: 0 <= i < |p.variants| ==> q.variants[i] == p.variants[i].(amount := q.variants[i].amount)
  }

  /** Variant lookup depends only on ids, which stock changes leave alone. */
  lemma FindVariantIgnoresAmounts(p: Product, q: Product, vid: Id)
    requires SameExceptAmounts(p, q)
    ensures FindVariant(p.variants, vid) == FindVariant(q.variants, vid)
  {
    var a, b := FindVariant(p.variants, vid), FindVariant(q.variants, vid);
    if a.Some? {
      assert q.variants[a.value].id == vid;
    }
    if b.Some? {
      assert p.variants[b.value].id == vid;
    }
  }

  /** Color lookup depends only on colors, which stock changes leave alone. */
  lemma FindColorVariantIgnoresAmounts(p: Product, q: Product, color: Id)
    requires SameExceptAmounts(p, q)
    ensures FindColorVariant(p.variants, color) == FindColorVariant(q.variants, color)
  {
    var a, b := FindColorVariant(p.variants, color), FindColorVariant(q.variants, color);
    if a.Some? {
      assert q.variants[a.value].color == color;
    }
    if b.Some? {
      assert p.variants[b.value].color == color;
    }
  }
}
