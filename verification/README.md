# Portal-Response-Backend: cart, checkout, catalogue and supplier rules in Dafny

This project models the business rules of a small online-store backend. The
backend is an Express/MongoDB service, with controller names in Spanish.
Five pieces of it are modelled:

- **The cart manager** (`carrito`). Each user has one cart. A cart is a list of lines. Each line holds a product, a quantity (`cantidad`, at least 1), the unit price when the line was first added (`precioUnitario`) and a subtotal. A pre-save hook rewrites the cart total as the sum of the subtotals.
- **Checkout** (`confirmarCompra`). It:
  - validates the delivery fields and the notification e-mail;
  - reports every line whose live stock is short, all-or-nothing;
  - otherwise lowers each product's stock by the quantity ordered;
  - records a pending order carrying the cart total;
  - empties the cart.
- **The order middlewares** (`validarStockProductos`, `validarPropietarioPedido`): a read-only stock check that stops at the first bad item, and an owner-or-`APP_ADMIN` check.
- **The product catalogue** (`producto`):
  - add, edit and delete, open only to administrators;
  - field, price and stock checks;
  - case-insensitive name uniqueness, excluding the product itself on edit;
  - the public search, with a name-substring filter, a category filter, a price range and an in-stock flag, sorted by name.
- **The supplier registry** (`proveedor`). It enforces:
  - one supplier per user account;
  - supplier names unique ignoring case at creation (an edit checks only the exact name);
  - categories resolved all-or-nothing;
  - no category assigned twice by the assign handler (create and edit do not de-duplicate the list);
  - no deletion while products reference the supplier.

The persisted state is a `Store` of finite maps keyed by document id:
products, categories, users, carts (keyed by owner), orders and suppliers.
It also holds `nextId`, a counter from which every created document takes
its id. An id is never handed out twice, even after a deletion, as with
MongoDB's ObjectIds. `Shop.IdsBelowNext` says every product, category,
user, order and supplier id, and every cart line's product, is below the
counter, and every handler preserves it.
Every handler is a pure function from the store and the request to a
`Result` holding either the new store or an `Error`. Errors are a datatype
whose constructors follow the handlers' early returns, in the handlers' own
order.

Two conventions stand in for MongoDB behaviour:

- **`findOne` takes the least matching id.** Ids are handed out in creation order, so the least id is the oldest document. MongoDB does not promise any order without a sort; the model fixes this one (see "Left out").
- **Anchored case-insensitive regex lookups are equality after ASCII case folding** (`SameName`). The search's unanchored name filter is a case-folded substring test (`ContainsIgnoringCase`).

Files:

| file | module | contents |
|---|---|---|
| `base.dfy` | `Base` | `Option`, `Result`, `Outcome`, the `Error` datatype, actors and roles, JavaScript falsiness, case folding, least id |
| `store.dfy` | `Shop` | entities, the `Store`, name/e-mail lookups, store invariants |
| `cart.dfy` | `Carts` | the pre-save hook, the cart handlers, cart invariants |
| `checkout.dfy` | `Checkout` | the e-mail pattern, the stock partition, the decrement, `ConfirmPurchase` |
| `guards.dfy` | `OrderGuards` | the two order middlewares |
| `catalogue.dfy` | `Catalogue` | product add/edit/delete, search and its name ordering |
| `suppliers.dfy` | `Suppliers` | supplier create/edit/delete, category assignment |

## Model

| member | source | states |
|---|---|---|
| Shop.FindProductByName | src/carrito/carrito.controller.js:54-56 | The lookup finds nothing exactly when no product's name equals the given one ignoring case. Otherwise it yields such a product, and the first one in insertion order. |
| Shop.FindCategoryByName | src/producto/producto.controller.js:29-32 | The lookup finds nothing exactly when no active category has the name ignoring case. Otherwise it yields an active category with that name. |
| Shop.FindUserByEmail | src/proveedor/proveedor.controller.js:11-14 | The lookup finds nothing exactly when no active account has the e-mail ignoring case. Otherwise it yields an active account with that e-mail. |
| Shop.FindSupplierByName | src/proveedor/proveedor.controller.js:281-283 | The lookup finds nothing exactly when no supplier has the name ignoring case. Otherwise it yields a supplier with that name. |
| Carts.SumSubtotalsAppend | src/carrito/carrito.model.js:47 | The sum of subtotals of two concatenated line lists is the sum of their sums, so the reduction can be computed line by line. |
| Carts.PreSave | src/carrito/carrito.model.js:46-49 | After saving, the total is the sum of the line subtotals, whatever total the cart held before. A cart with no lines saves with total 0. The owner and lines are untouched. |
| Carts.IndexOfProduct | src/carrito/carrito.controller.js:82-84 | The result is -1 exactly when no line is for the product. Otherwise it is the position of the first line for it. |
| Carts.WithoutProductKeeps | src/carrito/carrito.controller.js:237-239 | The kept lines are exactly the original lines not for the product. The length is unchanged exactly when no line was for it. Filtering keeps "one line per product". |
| Carts.WithoutProductAppend | src/carrito/carrito.controller.js:237-239 | Filtering a concatenation is the concatenation of the filtered parts. With the singleton case this fixes the result as the kept lines in their original order. |
| Carts.WithoutProductSingleton | src/carrito/carrito.controller.js:237-239 | A single line is kept exactly when it is not for the product. |
| Carts.GetCart | src/carrito/carrito.controller.js:11-22 | An existing cart is returned and the store is unchanged. Otherwise an empty cart with total 0 is stored for the user. No other cart changes. Sound carts stay sound, and every id stays below the counter. |
| Carts.AddLine | src/carrito/carrito.controller.js:82-110 | The effect of a successful add. A product not yet in the cart gets one new line at the end, priced at the current price with subtotal qty × price, and the existing lines are untouched. A product already in the cart has its line's quantity raised to old + new and its subtotal set to merged × current price; it keeps its original unit price, and the other lines are unchanged. Other carts are unchanged, the cart is created when missing, and the total is the sum of subtotals. |
| Carts.AddLineKeepsCartsSound | src/carrito/carrito.controller.js:82-110 | For a quantity of at least 1, if every cart was sound, every cart stays sound. Sound means filed under its owner, quantities ≥ 1, at most one line per product and total = sum of subtotals. |
| Carts.AddLineKeepsIds | src/carrito/carrito.controller.js:100-108 | A line is only ever added for an existing product, so every cart line still names an id below the counter. |
| Carts.AddToCart | src/carrito/carrito.controller.js:43-110 | Each error occurs exactly where the earlier checks have passed. In order: quantity below 1 (the default is 1); unknown product; stock below the requested quantity; stock below the merged quantity. Both stock errors report the available stock. It succeeds exactly when stock covers both the request and the cart's existing quantity plus the request, and the new store is then `AddLine`'s. Sound carts stay sound, and every id stays below the counter. |
| Carts.UpdateQuantity | src/carrito/carrito.controller.js:135-189 | Each error occurs exactly where the earlier checks have passed. In order: quantity below 1; no cart; unknown product; stock below the quantity; product not in the cart. On success only that line changes: its quantity is set and its subtotal becomes qty × current price. Other lines and carts are untouched, and the total is the sum of subtotals. Sound carts stay sound, and every id stays below the counter. |
| Carts.RemoveFromCart | src/carrito/carrito.controller.js:216-249 | Each error occurs exactly where the earlier checks have passed: no cart; unknown product; no line for the product. It succeeds exactly when some line is for the product. The new lines are the filter of the old ones: the lines for other products, in their original order. The line count strictly drops. Sound carts stay sound, and every id stays below the counter. |
| Carts.ClearCart | src/carrito/carrito.controller.js:275-285 | It fails exactly when the user has no cart. Otherwise that cart ends with no lines and total 0, and nothing else changes. Sound carts stay sound, and every id stays below the counter. |
| Checkout.EmailPatternAcceptsDotted | src/carrito/carrito.controller.js:318-319 | The recognizer for the notification e-mail pattern accepts `ana.perez@mail.com`. |
| Checkout.EmailPatternAcceptsGroups | src/carrito/carrito.controller.js:318-319 | The pattern accepts a hyphenated local part and several dot groups: `j-lo@mail.co.uk`. |
| Checkout.DoubledSeparatorRejected | src/carrito/carrito.controller.js:318-319 | An address with two separators in a row before its first '@' never matches the pattern. |
| Checkout.EmailPatternRejectsBareDomain | src/carrito/carrito.controller.js:318-319 | The pattern rejects a domain without a dot group: `ana@mail`. |
| Checkout.EmailPatternRejectsDoubledSeparator | src/carrito/carrito.controller.js:318-319 | The pattern rejects a doubled separator: `ana..perez@mail.com`. |
| Checkout.EmailPatternRejectsLongSuffix | src/carrito/carrito.controller.js:318-319 | The pattern rejects a four-letter last group: `ana@mail.info`. |
| Checkout.SegmentedThenGroups | src/carrito/carrito.controller.js:318 | Segmented text followed by any number of `.` groups of 2 or 3 word characters is segmented text, '.' and one last group: every group but the last is absorbed into the segmented part. |
| Checkout.DomainOkIsRegexDomain | src/carrito/carrito.controller.js:318 | The domain test (segmented text, '.', then 2 or 3 word characters) accepts exactly the domains the pattern's `\w+([.-]?\w+)*(\.\w{2,3})+` matches, read literally. This holds in both directions. |
| Checkout.ValidEmailIsRegexEmail | src/carrito/carrito.controller.js:318-319 | The e-mail test accepts exactly the strings the whole pattern matches, read literally. This holds in both directions. |
| Checkout.ShortagesReport | src/carrito/carrito.controller.js:338-351 | Every reported item comes from a line whose live stock is below its quantity. Every such line is reported, with the product's name, the available stock and the requested quantity. |
| Checkout.ShortagesAppend | src/carrito/carrito.controller.js:341-351 | Reporting a concatenation of lines is the concatenation of the two reports. With the single-line case this fixes the report as one entry per short line, in cart order. |
| Checkout.ShortagesSingleton | src/carrito/carrito.controller.js:342-347 | A single line is reported exactly when its live stock is below its quantity, with the product's name, the stock and the quantity. |
| Checkout.QtyForDistinct | src/carrito/carrito.controller.js:384-388 | With at most one line per product, the units the lines ask for a product are that line's quantity, or 0 when it has no line. |
| Checkout.DecrementEffect | src/carrito/carrito.controller.js:384-388 | The decrement loop keeps the same products. Each product's stock falls by exactly the total quantity the lines ask for it. Nothing else changes. |
| Checkout.DuplicateLinesWouldOversell | src/carrito/carrito.controller.js:341-388 | With two lines for the same product, both pass the per-line check and the loop drives stock to -1. The check is sound only because carts hold one line per product. |
| Checkout.OrderLinesUnits | src/carrito/carrito.controller.js:363-388 | For every product, the order's lines ask for exactly the units the cart's lines asked for, which are the units the stock loop takes away. |
| Checkout.ConfirmPurchase | src/carrito/carrito.controller.js:307-411 | Each error occurs exactly where the earlier checks have passed. In order: missing or empty address, phone or e-mail; e-mail not matching the pattern; no cart or an empty cart; a line whose product no longer exists, which gives a server error; then short lines, reported as the full non-empty list with nothing written. A checkout that passes every check succeeds, and on success every line was covered by stock. Stock falls by exactly the units ordered. A new pending order records the cart's lines and total under the next unused id, and the counter advances. The cart ends with no lines and total 0, and nothing else changes. Every id stays below the counter, so no order is overwritten. |
| Checkout.CheckoutKeepsInvariants | src/carrito/carrito.controller.js:341-411 | Starting from positive prices, non-negative stock and sound carts, checkout keeps all three. Stock never goes negative. The order's total equals the sum of the cart's subtotals. |
| Checkout.OrderMatchesDecrement | src/carrito/carrito.controller.js:363-388 | After a successful checkout, each product's stock is lower by exactly the units the new order records for it. |
| Checkout.DeletedProductBlocksCheckout | src/carrito/carrito.controller.js:327-341 | A product is deleted while a cart holds a line for it, and then another product is added. The new product never takes the deleted id, so the stale line does not silently point at it. Checking out that cart fails with a server error. |
| OrderGuards.ValidateStock | src/middlewares/validar-pedidos.js:4-33 | It passes exactly when every item names an existing product with stock ≥ its quantity. Otherwise it reports the first bad item in list order: NotFound for a missing product, InsufficientStock with the available stock for a short one. The catalogue is only read. |
| OrderGuards.CheckOrderOwner | src/middlewares/validar-pedidos.js:37-56 | An absent order, and only that, gives NotFound. A present order is allowed exactly when the actor owns it or has role `APP_ADMIN`, and is Forbidden otherwise. |
| Catalogue.AddProduct | src/producto/producto.controller.js:4-63 | Each error occurs exactly where the earlier checks have passed. Non-administrators get Forbidden before anything else. A missing or falsy field gives MissingFields, so a price or stock of 0 is refused here. Then: price ≤ 0 or stock < 0 gives InvalidPriceOrStock; an unresolved category gives NotFound; a name held ignoring case gives Conflict. It succeeds exactly when all checks pass. The new product is stored under the next unused id, which is then spent, and nothing else changes. Positive prices, non-negative stock, unique names and ids below the counter are preserved. |
| Catalogue.EditProduct | src/producto/producto.controller.js:84-160 | Each error occurs exactly where the earlier checks have passed. In order: Forbidden; unknown id; a supplied price ≤ 0; a supplied stock < 0; a named category that does not resolve; a new name held by another product ignoring case; a blank name or description, which the update's validators refuse. On success only that product changes, and exactly its supplied fields are replaced. Positive prices, non-negative stock and unique names are preserved: a product may re-case its own name but never take another's. |
| Catalogue.DeleteProduct | src/producto/producto.controller.js:221-245 | Non-administrators get Forbidden. Otherwise it fails NotFound exactly when the id is absent. On success only that product is removed, and the counter is kept, so its id is not reused. Positive prices, non-negative stock and unique names are preserved. |
| Catalogue.NameLeTotal | src/producto/producto.controller.js:360-362 | The name order used for sorting is total: of any two names, one is ≤ the other. |
| Catalogue.NameLeTransitive | src/producto/producto.controller.js:360-362 | The name order is transitive. |
| Catalogue.Insert | src/producto/producto.controller.js:360-362 | Inserting an id into a list adds exactly that id, keeps the rest and adds no duplicate. |
| Catalogue.InsertSorted | src/producto/producto.controller.js:360-362 | Inserting into a name-sorted list keeps it sorted by name. |
| Catalogue.SortByName | src/producto/producto.controller.js:360-362 | The result holds exactly the given ids, each once, in ascending name order. |
| Catalogue.SearchProducts | src/producto/producto.controller.js:331-362 | The results are exactly the products passing every supplied filter, each once, in ascending name order. The filters are: case-insensitive name substring, the category (dropped when the name does not resolve), minimum and maximum price, and stock > 0 when asked. |
| Suppliers.ResolveCategories | src/proveedor/proveedor.controller.js:46-64 | Resolution succeeds exactly when every name resolves to an active category, and then yields them in order. Otherwise it fails NotFound with nothing else produced. |
| Suppliers.AddSupplier | src/proveedor/proveedor.controller.js:8-74 | Each error occurs exactly where the earlier checks have passed. In order: an unknown account e-mail; the account already being a supplier; a name taken ignoring case (Conflict); an unresolved category (NotFound); a blank name or contact, which fails at save. On success one new active supplier is stored under the next unused id with the resolved categories, the counter advances, and nothing else changes. One supplier per account, names unique ignoring case and ids below the counter are preserved. |
| Suppliers.AddSupplierRepeatsCategory | src/proveedor/proveedor.controller.js:47-63 | Two requested names for the same category (e.g. differing only in case) give a category list holding it twice. Creation does not de-duplicate. |
| Suppliers.EditSupplier | src/proveedor/proveedor.controller.js:99-137 | Each error occurs exactly where the earlier checks have passed. In order: a non-empty category list that does not fully resolve fails NotFound, with nothing changed; a blank name or contact fails validation; an absent id fails NotFound; a name held exactly by another supplier fails at the unique index. On success only that supplier changes: supplied fields are replaced, and categories are replaced only by a non-empty, fully resolved list. An edit never moves a supplier to another account, so one supplier per account is preserved. |
| Suppliers.EditSupplierAllowsCaseOnlyClash | src/proveedor/proveedor.controller.js:101-128 | Renaming checks only the exact-match unique index. A new name differing from another supplier's only in letter case goes through, and names are then no longer unique ignoring case. |
| Suppliers.DeleteSupplier | src/proveedor/proveedor.controller.js:156-174 | If any product references the supplier, deletion fails, reporting how many, and nothing is removed. With no references, an absent id fails NotFound. It succeeds exactly when the supplier exists and no product references it, and then only that supplier is removed. One supplier per account and unique names are preserved. |
| Suppliers.AssignCategory | src/proveedor/proveedor.controller.js:278-319 | Each error occurs exactly where the earlier checks have passed. In order: unknown supplier name; unknown or inactive category; category already assigned, which gives Conflict. Otherwise the category is appended once, and nothing else changes. Duplicate-free category lists stay duplicate-free. |

## Left out

- HTTP plumbing is not modelled. Response bodies, status codes, `populate`, the list of available categories in 404 bodies and logging are all absent; errors are the `Error` datatype.
- Concurrency is not modelled. The stock check and the per-product decrements of checkout are separate awaits in the source. Here they are one sequential step, so interleaved requests and partial failure between awaits are absent.
- The checkout confirmation e-mail is not modelled. Its failure is swallowed, so it never affects the store.
- The order's delivery address, phone, remarks, status history and per-line unit price are not stored. The order schema (src/pedidos/pedidos.model.js) does not declare them. The order keeps only owner, lines (product, quantity), total and status `Pending`.
- Regular-expression metacharacters in user-supplied names are not modelled. Lookups use case-folded equality, and the search's name filter uses a case-folded substring. Case folding covers ASCII letters only.
- Prices, subtotals and stock are integers (whole cents), not JavaScript floating-point numbers. Non-numeric quantities (strings, fractions, `undefined` in the update handler) are not modelled.
- Whitespace trimming by the schemas is not modelled.
- The order lifecycle is not modelled: status changes, cancellation and stock restore. src/pedidos/pedidos.controller.js is plain CRUD with no rules and is not part of this model.
- Authentication, JWT, password hashing and the user and role endpoints are not modelled. The actor is given as an id and a role.
- Malformed ids are not modelled. The source's ObjectId cast errors would give status 500; here ids are naturals.
- Store order without a sort is not modelled. `findOne` with no sort returns documents in MongoDB's natural order, which MongoDB does not guarantee to be insertion order. The model takes the least id, which is the oldest document. With duplicate names possible (see `Suppliers.EditSupplierAllowsCaseOnlyClash`), a real server may pick a different one of the matches.
- Absent fields in updates are modelled as left unchanged. Both edit handlers build the update from every field, present or not (src/producto/producto.controller.js:105, src/proveedor/proveedor.controller.js:101). This relies on Mongoose 6 or later, which drops `undefined` keys from an update. Under Mongoose 5 an absent field would be written as null and fail the required-field validators; that behaviour is not modelled.
- Schema validators on updates are modelled only for blank required strings in edits. Other validator failures are not modelled.
- The read-only endpoints are not modelled: listing, lookup by id, and the per-supplier product listings. They hold no rules beyond the lookups above.
