# Stock and sales ledger of nextzone-stockapp-backend, in Dafny

The backend keeps a clothing catalog and a sales ledger in MongoDB. The catalog
holds products with color variants, plus categories and colors. Each variant
has its own stock counter (`amount`), a cost price and a sell price. Each sale
records its line items, with the name and the prices copied at the moment of
sale, and stores its totals.

This project models the core of that backend:

- The product, category, color and sale controllers. Each is a method on an
  in-memory store (`Database.Db`) that returns the HTTP status the controller
  answers with.
- The two request gates of the auth middleware, as pure functions.

The store is a class with one map per collection (products, categories,
colors), a sequence for the ledger and a counter for fresh ids. Its invariant
`Db.Valid()` covers:

- every id lies below the counter;
- every stored sale has totals that agree with its items;
- every stored sale satisfies the sale schema;
- the unique indexes on product and color names hold;
- no two categories have names that differ only in letter case.

Every controller method keeps `Valid()`.

Sale creation is the heart of the model. `createSale` walks the cart in order.
It decrements each variant as soon as its line passes, so a later line sees
the stock the earlier ones left. It stops at the first line that fails, and
decrements already made stay in place. The model states that behaviour as a
function of the old inventory, `SaleProcessing.RunCart`. The loop
(`SalesController.ProcessCart`) is proved to end in the state `RunCart` gives.
Lemmas about `RunCart` then establish:

- the inventory after a sale that goes through is the old one with every
  line's quantity debited;
- the recorded items are snapshots of the catalog before the sale;
- no variant is ever overdrawn;
- a failure keeps the earlier debits;
- deleting a sale right after creating it restores every stock counter.

Stock changes are lists of `Inventory.Move`s applied with a match-or-skip
`$inc`. Their effect on each variant is the net of the deltas aimed at it.

Other modelling choices:

- Money is in integer cents and times are integer timestamps. The save time
  of a sale is a parameter.
- Names are compared up to ASCII letter case.
- `trim: true` schema paths store `Text.Trim` of the value. `Text.Trim` removes
  the characters `String.prototype.trim` removes.
- JWT verification and the user lookup are parameters of the auth functions.

Four behaviours of the code are captured as written:

- The color create check is an unanchored prefix match. With "Redwood"
  stored, "red" is refused (`ColorsController.ShorterNameRefused`).
- The uniqueness checks compare the raw request name, while the unique index
  compares the trimmed stored name.
- `deleteProduct` answers 400, not 404, for a missing product.
- A cart line with a quantity of 0 or less passes the stock check, and its
  `$inc` adds stock. The sale record then fails the schema's minimum quantity
  of 1, so the request answers 400 and records nothing, while the added stock
  stays (`SaleProcessing.NonPositiveQuantityInflatesStock`).

## Model

| member | source | states |
|---|---|---|
| Text.SameIgnoringCaseIsPrefix | src/controllers/colors/index.ts:9-11 | an anchored case-insensitive match is exactly a prefix match of equal length |
| Text.Trim | src/models/product.ts:22 | the stored name is empty or starts and ends with a non-space character, and is no longer than the input |
| Text.TrimSlice | src/models/color.ts:11-12 | the trimmed value is a contiguous slice of the input with only white space before and after it |
| Text.TrimIdempotent | src/models/color.ts:11-12 | trimming a stored (already trimmed) name changes nothing |
| Text.TrimBlank | src/models/product.ts:22 | a name made only of white space is stored as empty, which `required` refuses |
| ProductModel.NewProduct | src/models/product.ts:22-33 | a new product stores the trimmed name, given category, variants and image, is active, and has alert threshold 5 unless one is given |
| ProductModel.TotalProfitAppend | src/models/product.ts:45-47 | the `totalProfit` virtual distributes over concatenated variant lists |
| ProductModel.TotalProfitNonNegative | src/models/product.ts:45-47 | with non-negative stock and sell price at least cost on every variant, the potential profit is at least 0 |
| ProductModel.TotalProfitAdjust | src/models/product.ts:45-47 | changing one variant's amount by d changes the potential profit by that variant's margin times d |
| ProductModel.FindVariant | src/controllers/sales/index.ts:19 | the result is the position of the first variant with the id, or none when no variant has it |
| ProductModel.FindColorVariant | src/controllers/products/index.ts:258-260 | the result is the position of the first variant with the color, or none when no variant has it |
| ProductModel.FindVariantIgnoresAmounts | src/controllers/sales/index.ts:19 | variant lookup by id gives the same answer before and after stock changes |
| ProductModel.FindColorVariantIgnoresAmounts | src/controllers/products/index.ts:259 | variant lookup by color gives the same answer before and after stock changes |
| SaleModel.SumsSnoc | src/controllers/sales/index.ts:31-35 | appending a line item adds its subtotal to the revenue sum and its subtotal minus cost to the profit sum |
| SaleModel.SumProfitIsRevenueMinusCost | src/controllers/sales/index.ts:31-35 | the accumulated profit is the accumulated revenue minus the accumulated cost |
| SaleModel.SumProfitNonNegative | src/controllers/sales/index.ts:31-35 | when every line sells at no less than its cost, the sale's profit is at least 0 |
| SaleModel.SumAmountNonNegative | src/models/sale.ts:25-27 | line items within the schema bounds give a non-negative sale total |
| SaleModel.NewSale | src/controllers/sales/index.ts:51-56 | the saved record carries the processed items, the comment and the save time; it is a consistent ledger entry exactly when its items meet the schema, and its profit is its revenue minus the cost of its items |
| Inventory.AddToVariant | src/controllers/sales/index.ts:46-49 | a `$inc` keeps every product and every variant's id, color and prices; only stock counters may change |
| Inventory.AddToVariantAt | src/controllers/sales/index.ts:46-49 | one `$inc` moves exactly the variant it matches, by its delta, and no other |
| Inventory.NetIgnoresAmounts | src/controllers/sales/index.ts:139-143 | where a list of `$inc`s lands depends only on ids, not on current stock |
| Inventory.ApplyMovesAt | src/controllers/sales/index.ts:138-145 | after a list of `$inc`s, every stock counter has moved by the net delta aimed at it and nothing else has changed |
| Inventory.ApplyMovesAppend | src/controllers/sales/index.ts:138-145 | applying two lists of `$inc`s one after the other is applying their concatenation |
| Inventory.NetAppend | src/controllers/sales/index.ts:138-145 | the net delta of concatenated lists is the sum of their net deltas |
| Inventory.NetZeroRestores | src/controllers/sales/index.ts:138-145 | `$inc`s whose net delta is zero on every variant leave the store exactly as it was |
| Database.FindSale | src/controllers/sales/index.ts:130 | the result is the position of the sale with the id, or none when the ledger has no such sale |
| Database.Db.AppendSale | src/controllers/sales/index.ts:51-58 | a consistent sale under a fresh id is appended to the ledger and the invariant is kept |
| Database.Db.AddProduct | src/controllers/products/index.ts:34-45 | a product whose name no stored product has is inserted under a fresh id and the unique-name invariant is kept |
| Database.Db.ReplaceProduct | src/controllers/products/index.ts:172-176 | an update that keeps product names unique replaces exactly one document |
| Database.Db.AddCategory | src/controllers/categories/index.ts:21-22 | a category with no case-insensitive name clash is inserted under a fresh id |
| Database.Db.ReplaceCategory | src/controllers/categories/index.ts:121-127 | an update without a case-insensitive clash replaces exactly one category |
| Database.Db.AddColor | src/controllers/colors/index.ts:20-21 | a color whose name no stored color has is inserted under a fresh id |
| Database.Db.ReplaceColor | src/controllers/colors/index.ts:114-120 | an update that keeps color names unique replaces exactly one color |
| Database.Db.RemoveSale | src/controllers/sales/index.ts:146 | the sale leaves the ledger, the order of the others is kept, and no sale with its id remains |
| Database.Db.IncAmount | src/controllers/sales/index.ts:46-49 | the store after one `$inc` is the match-or-skip update of the old store, and the invariant is kept |
| SaleProcessing.LineStepDone | src/controllers/sales/index.ts:13-49 | a line that goes through found its product and variant, records the snapshot of that variant, and debits it |
| SaleProcessing.RunCartStops | src/controllers/sales/index.ts:15-29 | the first failing line ends processing with its status and no further change |
| SaleProcessing.RunCartContinues | src/controllers/sales/index.ts:12-50 | a line that goes through hands the debited inventory to the rest of the cart |
| SaleProcessing.SnapshotIgnoresAmounts | src/controllers/sales/index.ts:37-44 | a snapshot reads only names, ids and prices, so earlier debits do not change it |
| SaleProcessing.SnapshotsCons | src/controllers/sales/index.ts:37-44 | snapshots taken after earlier debits equal snapshots of the catalog before the sale |
| SaleProcessing.RunCartDebits | src/controllers/sales/index.ts:46-49 | a cart that goes through leaves the old inventory with every line's quantity debited from its variant |
| SaleProcessing.RunCartSucceeds | src/controllers/sales/index.ts:12-50 | a cart that goes through records, line by line, the name and prices of the catalog before the sale, and debits every line |
| SaleProcessing.RunCartItemsMatchCart | src/controllers/sales/index.ts:37-44 | every cart line becomes exactly one line item with the same product, variant and quantity |
| SaleProcessing.LineStepNeverOverdraws | src/controllers/sales/index.ts:25-29 | a line only debits a variant holding at least the quantity, so that variant ends at 0 or more |
| SaleProcessing.RunCartNeverOverdraws | src/controllers/sales/index.ts:25-49 | whether the cart goes through or stops part-way, every counter it changed ends at 0 or more |
| SaleProcessing.RunCartKeepsStockNonNegative | src/models/product.ts:27 | a store with no negative stock has none after a sale attempt |
| SaleProcessing.RunCartFailure | src/controllers/sales/index.ts:15-29 | a failing cart stops at some line j after the lines before it went through, with status 404 or 400 |
| SaleProcessing.FailsAtShift | src/controllers/sales/index.ts:12-29 | a passing line in front of a cart that fails at j makes a cart that fails at j + 1 |
| SaleProcessing.FailureKeepsEarlierDebits | src/controllers/sales/index.ts:46-49 | when a cart fails at line j, the debits of lines 0..j-1 stay in the inventory |
| SaleProcessing.CreditsCancelDebits | src/controllers/sales/index.ts:138-145 | the credits of the recorded items cancel the debits of the cart on every variant |
| SaleProcessing.CreateThenDeleteRestoresStock | src/controllers/sales/index.ts:138-145 | deleting a sale right after creating it restores the inventory to what it was before the sale |
| SaleProcessing.LineStepMovesProfit | src/models/product.ts:45-47 | a line that goes through lowers its product's potential profit by exactly the profit recorded for the line |
| SalesReport.Matching | src/controllers/sales/index.ts:79-87 | the query returns every ledger sale inside the inclusive window with its multiplicity, and no other; with a bound missing, every sale |
| SalesReport.ConsNewestFirst | src/controllers/sales/index.ts:89 | a sale no older than the head of a newest-first list can go in front of it |
| SalesReport.InsertPermutes | src/controllers/sales/index.ts:89 | inserting a sale adds exactly that sale to the multiset |
| SalesReport.InsertSorted | src/controllers/sales/index.ts:89 | inserting into a newest-first list keeps it newest first |
| SalesReport.SortSorted | src/controllers/sales/index.ts:89 | the sorted sales are in descending `createdAt` order |
| SalesReport.SortPermutes | src/controllers/sales/index.ts:89 | sorting returns the same sales, as a multiset |
| SalesReport.InsertKeepsTotals | src/controllers/sales/index.ts:102-107 | inserting a sale adds its totals to the sums |
| SalesReport.SortKeepsTotals | src/controllers/sales/index.ts:102-107 | sorting does not change the revenue and profit sums |
| SalesReport.GetSales | src/controllers/sales/index.ts:79-116 | the report holds exactly the selected sales, newest first; its totals are their sums; `count` is their number and is absent when there are none |
| SalesReport.ReportWithoutWindowHasEverySale | src/controllers/sales/index.ts:79-87 | without both bounds the report holds every sale of the ledger |
| SalesReport.EmptyWindowGivesZeroReport | src/controllers/sales/index.ts:92-100 | a window that excludes every sale gives empty data and zero totals, not an error |
| SalesController.TakeLine | src/controllers/sales/index.ts:13-49 | one pass of the loop ends in the state the line step of `RunCart` gives, and changes the store only when the line goes through |
| SalesController.CartStep | src/controllers/sales/index.ts:13-49 | one pass with its bookkeeping: a failing line fixes the loop's outcome at the current inventory and items; a passing line appends its item, keeps the totals equal to the sums, and leaves the rest of the cart leading where the whole cart led |
| SalesController.ProcessCart | src/controllers/sales/index.ts:8-50 | the loop leaves the inventory as `RunCart` of the old inventory says, reports the failing status if any, and returns totals equal to the sums over the processed items |
| SalesController.CreateSale | src/controllers/sales/index.ts:5-72 | the inventory ends as `RunCart` says in every case; a sale is appended only when the whole cart passes and its items meet the schema; a failed line gives its status and no record; the id counter advances exactly when a sale is recorded |
| SalesController.DeleteSale | src/controllers/sales/index.ts:126-159 | an unknown id is 404 with nothing changed; otherwise every stored item is credited back, match-or-skip, and the sale leaves the ledger for good |
| Auth.Split | src/middlewares/auth.ts:7 | the pieces contain no space and joining them with single spaces gives back the header |
| Auth.SplitPiece | src/middlewares/auth.ts:7 | a space-free piece followed by a space splits off as the first field |
| Auth.SplitSpaceless | src/middlewares/auth.ts:7 | a string without spaces splits into itself alone |
| Auth.SplitJoin | src/middlewares/auth.ts:7 | splitting undoes joining for space-free fields |
| Auth.Token | src/middlewares/auth.ts:7-9 | a token, when there is one, is non-empty and contains no space |
| Auth.TokenOfPieces | src/middlewares/auth.ts:7-9 | the token of a header is its second field if that field exists and is non-empty, and nothing otherwise |
| Auth.BearerToken | src/middlewares/auth.ts:7 | `Bearer <token>` yields the token |
| Auth.NoSpaceNoToken | src/middlewares/auth.ts:9-11 | a header without a space carries no token |
| Auth.VerifyToken | src/middlewares/auth.ts:5-22 | the request continues, with the decoded id recorded, exactly when there is a token and the verifier accepts it; otherwise 401 |
| Auth.IsAdmin | src/middlewares/auth.ts:24-36 | the request continues exactly for an existing admin or developer; a seller or missing user gets 403, a failed lookup 500 |
| ProductsController.CreateProducts | src/controllers/products/index.ts:9-58 | 201 exactly when there is an image, no name clash up to case, the product passes the schema and its trimmed name is not stored; then it is inserted with the schema defaults under the next id and the counter advances, otherwise 400 and nothing changes |
| ProductsController.RepeatedCreateRefused | src/controllers/products/index.ts:24-45 | once a product is stored, the same create request is refused |
| ProductsController.UpdateProduct | src/controllers/products/index.ts:137-197 | the outcome and its order: clash 400, validator failure 400, missing 404, stored duplicate 400; on 200 the name, category and threshold are set, variants and image only when supplied, and nothing else changes |
| ProductsController.DeleteProduct | src/controllers/products/index.ts:106-135 | 200 and removal exactly when the product exists; otherwise 400 and nothing changes |
| ProductsController.DeactivateProduct | src/controllers/products/index.ts:199-224 | 200 exactly when the product exists, which is then inactive and otherwise unchanged; a second call changes nothing; 404 otherwise |
| ProductsController.ActivateProduct | src/controllers/products/index.ts:226-251 | 200 exactly when the product exists, which is then active and otherwise unchanged; a second call changes nothing; 404 otherwise |
| ProductsController.AdjustColorStock | src/controllers/products/index.ts:258-261 | no result exactly when the product or a variant of that color is missing; otherwise only the first such variant's amount moves, by the quantity, and the potential profit moves by its margin times the quantity |
| ProductsController.AdjustColorStockUndo | src/controllers/products/index.ts:258-261 | adjusting by q and then by -q gives back the original store |
| ProductsController.AdjustColorStockCanGoNegative | src/controllers/products/index.ts:258-261 | nothing bounds the adjustment: a stock of 2 adjusted by -5 becomes -3 |
| ProductsController.UpdateVariantStock | src/controllers/products/index.ts:253-282 | 404 with nothing changed when the product or variant is missing; otherwise 200 and the adjustment |
| CategoriesController.CreateCategory | src/controllers/categories/index.ts:6-35 | 201 exactly when the name clashes with no category up to case and is non-empty; the category is then stored under the next id, active unless told otherwise, and the counter advances; 400 and no change otherwise |
| CategoriesController.DeleteCategory | src/controllers/categories/index.ts:74-102 | 400 exactly while a product is in the category, checked before 404 for a missing one; on 200 it is removed, and no product loses an existing category |
| CategoriesController.UpdateCategory | src/controllers/categories/index.ts:104-145 | 400 exactly on a case-insensitive clash with another category, then 404 when missing; on 200 the name and, when given, the flag are replaced |
| CategoriesController.DeactivateCategory | src/controllers/categories/index.ts:147-180 | 400 exactly while a product is in the category, then 404 when missing; on 200 it is inactive, and no product's category changes its flag |
| CategoriesController.ActivateCategory | src/controllers/categories/index.ts:182-206 | 200 and active exactly when the category exists, without a reference check; 404 otherwise |
| ColorsController.PrefixCoversClash | src/controllers/colors/index.ts:9-11 | every name the update check refuses, the create check refuses too |
| ColorsController.ShorterNameRefused | src/controllers/colors/index.ts:9-18 | with "Redwood" stored, create refuses "red" although no stored name equals it up to case |
| ColorsController.CreateColor | src/controllers/colors/index.ts:5-33 | 201 exactly when no stored name starts with the request name up to case and the trimmed name is non-empty and not stored; then the trimmed color is stored under the next id and the counter advances, otherwise 400 and no change |
| ColorsController.DeleteColor | src/controllers/colors/index.ts:72-95 | 200 and removal exactly when the color exists, even while variants use it; 404 otherwise |
| ColorsController.UpdateColor | src/controllers/colors/index.ts:97-138 | 400 on a case-insensitive clash with another color, then 404 when missing, then 400 on a stored trimmed duplicate; on 200 the trimmed name and, when given, hex and flag are replaced |
| ColorsController.DeactivateColor | src/controllers/colors/index.ts:140-175 | 400 exactly while a variant uses the color, then 404 when missing; on 200 it is inactive, and no variant's color changes its flag |
| ColorsController.ActivateColor | src/controllers/colors/index.ts:177-203 | 200 and active exactly when the color exists; 404 otherwise |
| Text.SameIgnoringCase | src/controllers/products/index.ts:24-26 | defines the anchored `^name$` case-insensitive match: equal after ASCII case folding |
| Text.StartsWithIgnoringCase | src/controllers/colors/index.ts:9-11 | defines the unanchored `^name` case-insensitive match: a prefix after ASCII case folding |
| ProductModel.ValidProduct | src/models/product.ts:22-29 | defines the save validators of a product: a non-empty (trimmed) name and every variant amount at least 0; prices are unbounded |
| ProductModel.TotalProfit | src/models/product.ts:45-47 | defines the `totalProfit` virtual: the sum of (priceSell - priceCost) * amount over the variants, 0 for none |
| SaleModel.ValidItem | src/models/sale.ts:22-27 | defines the line-item schema bounds: a name, quantity at least 1, both prices at least 0 |
| SaleModel.ValidSale | src/models/sale.ts:20-28 | defines a sale the schema accepts: every line item within the bounds |
| SaleModel.SumAmount | src/controllers/sales/index.ts:31-34 | defines the running `totalAmount`: the sum of priceAtSale * quantity over the items in order |
| SaleModel.SumProfit | src/controllers/sales/index.ts:31-35 | defines the running `totalProfit`: the sum of subtotal minus subtotal cost over the items in order |
| Inventory.ApplyMoves | src/controllers/sales/index.ts:138-145 | defines a sequence of match-or-skip `$inc`s applied in order |
| Inventory.Net | src/controllers/sales/index.ts:138-145 | defines the total delta a sequence of `$inc`s aims at one variant |
| Database.Db.Valid | src/models/sale.ts:20-32 | defines the store invariant: ids below the counter, ledger entries whose totals match their items and whose items meet the schema, distinct sale ids, unique product and color names, category names distinct up to case |
| SaleProcessing.Debits | src/controllers/sales/index.ts:46-49 | one `$inc` of minus the quantity per cart line, as many as there are lines |
| SaleProcessing.Credits | src/controllers/sales/index.ts:139-144 | one `$inc` of plus the quantity per stored line item, as many as there are items |
| SaleProcessing.LineStep | src/controllers/sales/index.ts:13-49 | defines one pass of the `createSale` loop: 404 for a missing product or variant, 400 for short stock, otherwise the snapshot item and the debited inventory |
| SaleProcessing.RunCart | src/controllers/sales/index.ts:12-50 | defines the `createSale` loop as a function of the old inventory: lines in order, each seeing earlier debits, stopping at the first failure with earlier debits kept |
| SaleProcessing.NonPositiveQuantityInflatesStock | src/controllers/sales/index.ts:25-58 | a line of quantity -3 passes the stock check and raises the stock from 4 to 7, and the sale then fails the schema, so no record is kept while the stock stays raised |
| SalesReport.Insert | src/controllers/sales/index.ts:89 | one step of the newest-first sort: the result is one longer than the list; `InsertPermutes` and `InsertSorted` give the rest |
| SalesReport.SortNewestFirst | src/controllers/sales/index.ts:89 | `.sort({createdAt: -1})`: same length as its input; `SortSorted` and `SortPermutes` give the order and the permutation |
| SalesReport.Revenue | src/controllers/sales/index.ts:102-107 | defines the `reduce` of `totalAmount` over the returned sales |
| SalesReport.Profit | src/controllers/sales/index.ts:102-107 | defines the `reduce` of `totalProfit` over the returned sales |

## Left out

- Read-only endpoints are not modelled: `getProducts`, `getProductById`, `getCategories`, `getCategoryById`, `getColors` and `getColorById` only read the store.
- `searchProductsByNameAndCategory` is not modelled. It is a read-only, unanchored regular-expression search.
- The users controller is not modelled: registration, login, logout, password hashing and cookies are library wrappers.
- Express routing, request parsing and JSON response bodies are left out; outcomes are status codes.
- The `catch` branches for storage and casting errors are left out: malformed ids, a missing request field, an unparsable variant string.
- The save of a sale is modelled as failing only on the schema bounds.
- Image upload and deletion through Cloudinary and multer are left out. An image is a value passed in, or absent.
- `populate` is left out: it only adds display names to responses.
- Regular-expression metacharacters in names are not modelled. The checks compare plain strings.
- Letter case is folded for ASCII letters only.
- JavaScript numbers are modelled as unbounded integers: money in cents, dates as timestamps. Rounding is not modelled.
- The atomicity of `$inc` between concurrent requests is not modelled. Requests run one at a time.
- Variant ids are plain fields of the variant value. The store does not assign them.
- JWT signature checking is the `verify` parameter of `Auth.VerifyToken`. The user lookup of `isAdmin` is the `lookup` parameter of `Auth.IsAdmin`.
- The secret fallback and the expiry checks of JWT verification are left out.
- The `updatedAt` timestamps are left out. `createdAt` of a sale is the `now` parameter of `SalesController.CreateSale`.
- SalesReport.GetSales: a stored sale missing `totalAmount` or `totalProfit` is not modelled. Every sale in the store carries both totals, so the `|| 0` fallback never applies.
- ProductsController.UpdateProduct: `name`, `category` and `minStockAlert` are always supplied. A `$set` of an absent field is not modelled.
- CategoriesController.UpdateCategory: `name` is always supplied.
- ColorsController.UpdateColor: `name` is always supplied. Mongoose's `trim` setter is taken to apply to the `$set` update as it does on save.
- ColorsController.CreateColor: the request's `hexCode` field, which the handler destructures and never uses, is not modelled. The stored hex code comes from `hex`.
- SalesReport.SortNewestFirst: sales with equal `createdAt` may come out in any order. The database gives no order for ties, so only the multiset and the descending order are stated.
