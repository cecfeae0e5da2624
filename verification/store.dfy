/** The persisted state of the marketplace as finite maps from document ids
    to immutable records, the case-insensitive lookups the handlers perform on
    it, and the invariants the handlers keep. */
module Shop {
  import opened Base

  type ProductId = nat
  type CategoryId = nat
  type SupplierId = nat
  type OrderId = nat

  /** A catalogue entry.  Prices are whole cents. */
  datatype Product = Product(
    name: string,
    description: string,
    price: int,
    stock: int,
    category: CategoryId,
    supplier: Option<SupplierId>)

  /** A category; only active ones are found by name. */
  datatype Category = Category(name: string, active: bool)

  /** A registered account, looked up by e-mail when a supplier is created. */
  datatype User = User(email: string, active: bool)

  /** One line of a cart: the product, how many, the price when the line was
      first added, and the stored subtotal. */
  datatype CartLine = CartLine(product: ProductId, qty: int, unitPrice: int, subtotal: int)

  /** A user's cart; `total` is the figure written by the pre-save hook. */
  datatype Cart = Cart(owner: UserId, lines: seq<CartLine>, total: int)

  datatype OrderLine = OrderLine(product: ProductId, qty: int)

  /** The order statuses the order schema admits. */
  datatype OrderStatus = Pending | Processing | Completed | Cancelled

  /** An order as the order schema persists it. */
  datatype Order = Order(owner: UserId, lines: seq<OrderLine>, total: int, status: OrderStatus)

  datatype Supplier = Supplier(
    name: string,
    contact: string,
    user: UserId,
    categories: seq<CategoryId>,
    active: bool)

  /** Carts are keyed by their owner, which is how the schema's unique index
      on the cart's user reads in this model: one cart per user.  `nextId` is
      the id the next inserted document receives; it only grows, so an id is
      never handed out twice, not even after its document is deleted. */
  datatype Store = Store(
    products: map<ProductId, Product>,
    categories: map<CategoryId, Category>,
    users: map<UserId, User>,
    carts: map<UserId, Cart>,
    orders: map<OrderId, Order>,
    suppliers: map<SupplierId, Supplier>,
    nextId: nat)

  // ---------------------------------------------------------------------------
  // Lookups
  // ---------------------------------------------------------------------------

  /** The ids of products whose name equals `name` ignoring case. */
  function ProductsNamed(ps: map<ProductId, Product>, name: string): (r: set<ProductId>)
    ensures forall id :: id in r <==> id in ps && SameName(ps[id].name, name)
  {
    set id | id in ps.Keys && SameName(ps[id].name, name)
  }

  /** Resolve a product by case-insensitive exact name: the first match in
      natural order, or None. */
  function FindProductByName(ps: map<ProductId, Product>, name: string): (r: Option<ProductId>)
    ensures r.None? <==> forall id :: id in ps ==> !SameName(ps[id].name, name)
    ensures r.Some? ==> r.value in ps && SameName(ps[r.value].name, name)
    ensures r.Some? ==> forall id :: id in ps && SameName(ps[id].name, name) ==> r.value <= id
  {
    var hits := ProductsNamed(ps, name);
    if hits == {} then None else Some(MinId(hits))
  }

  function CategoriesNamed(cs: map<CategoryId, Category>, name: string): (r: set<CategoryId>)
    ensures forall id :: id in r <==> id in cs && cs[id].active && SameName(cs[id].name, name)
  {
    set id | id in cs.Keys && cs[id].active && SameName(cs[id].name, name)
  }

  function UsersWithEmail(us: map<UserId, User>, email: string): (r: set<UserId>)
    ensures forall id :: id in r <==> id in us && us[id].active && SameName(us[id].email, email)
  {
    set id | id in us.Keys && us[id].active && SameName(us[id].email, email)
  }

  function SuppliersNamed(ss: map<SupplierId, Supplier>, name: string): (r: set<SupplierId>)
    ensures forall id :: id in r <==> id in ss && SameName(ss[id].name, name)
  {
    set id | id in ss.Keys && SameName(ss[id].name, name)
  }

  /** Resolve an active category by case-insensitive exact name. */
  function FindCategoryByName(cs: map<CategoryId, Category>, name: string): (r: Option<CategoryId>)
    ensures r.None? <==> forall id :: id in cs ==> !(cs[id].active && SameName(cs[id].name, name))
    ensures r.Some? ==> r.value in cs && cs[r.value].active && SameName(cs[r.value].name, name)
  {
    var hits := CategoriesNamed(cs, name);
    if hits == {} then None else Some(MinId(hits))
  }

  /** Resolve an active user by case-insensitive exact e-mail. */
  function FindUserByEmail(us: map<UserId, User>, email: string): (r: Option<UserId>)
    ensures r.None? <==> forall id :: id in us ==> !(us[id].active && SameName(us[id].email, email))
    ensures r.Some? ==> r.value in us && us[r.value].active && SameName(us[r.value].email, email)
  {
    var hits := UsersWithEmail(us, email);
    if hits == {} then None else Some(MinId(hits))
  }

  /** Resolve a supplier by case-insensitive exact name. */
  function FindSupplierByName(ss: map<SupplierId, Supplier>, name: string): (r: Option<SupplierId>)
    ensures r.None? <==> forall id :: id in ss ==> !SameName(ss[id].name, name)
    ensures r.Some? ==> r.value in ss && SameName(ss[r.value].name, name)
  {
    var hits := SuppliersNamed(ss, name);
    if hits == {} then None else Some(MinId(hits))
  }

  // ---------------------------------------------------------------------------
  // Invariants
  // ---------------------------------------------------------------------------

  /** Every document id in use, and every product a cart line refers to, lies
      below the next id to hand out; so a fresh id names no document and no
      stale cart line. */
  predicate IdsBelowNext(s: Store) {
    && (forall id :: id in s.products ==> id < s.nextId)
    && (forall id :: id in s.categories ==> id < s.nextId)
    && (forall id :: id in s.users ==> id < s.nextId)
    && (forall id :: id in s.orders ==> id < s.nextId)
    && (forall id :: id in s.suppliers ==> id < s.nextId)
    && (forall u, i :: u in s.carts && 0 <= i < |s.carts[u].lines| ==> s.carts[u].lines[i].product < s.nextId)
  }

  /** Every price is positive and no stock is negative. */
  predicate CatalogueSound(ps: map<ProductId, Product>) {
    forall id :: id in ps ==> ps[id].price > 0 && ps[id].stock >= 0
  }

  /** No two products share a name, ignoring case. */
  predicate ProductNamesUnique(ps: map<ProductId, Product>) {
    forall a, b :: a in ps && b in ps && a != b ==> !SameName(ps[a].name, ps[b].name)
  }

  /** At most one supplier per user account. */
  predicate OneSupplierPerUser(ss: map<SupplierId, Supplier>) {
    forall a, b :: a in ss && b in ss && a != b ==> ss[a].user != ss[b].user
  }

  /** No two suppliers share a name, ignoring case. */
  predicate SupplierNamesUnique(ss: map<SupplierId, Supplier>) {
    forall a, b :: a in ss && b in ss && a != b ==> !SameName(ss[a].name, ss[b].name)
  }

  predicate NoDuplicates<T(==)>(xs: seq<T>) {
    forall i, j :: 0 <= i < j < |xs| ==> xs[i] != xs[j]
  }
}
