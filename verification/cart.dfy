/** The cart manager: lazy creation, add-with-merge, set-quantity, remove and
    clear, each a pure function from the store to the store it persists, and
    the pre-save hook that recomputes a cart's total. */
module Carts {
  import opened Base
  import opened Shop

  // ---------------------------------------------------------------------------
  // Totals and the pre-save hook
  // ---------------------------------------------------------------------------

  /** The sum of the stored subtotals of `lines`. */
  function SumSubtotals(lines: seq<CartLine>): int {
    if |lines| == 0 then 0 else lines[0].subtotal + SumSubtotals(lines[1..])
  }

  lemma {:induction false} SumSubtotalsAppend(a: seq<CartLine>, b: seq<CartLine>)
    ensures SumSubtotals(a + b) == SumSubtotals(a) + SumSubtotals(b)
  {
    if |a| == 0 {
      assert a + b == b;
    } else {
      assert (a + b)[1..] == a[1..] + b;
      SumSubtotalsAppend(a[1..], b);
    }
  }

  /** The cart as persisted: whatever `total` held, it is replaced by the sum
      of the subtotals. */
  function Saved(c: Cart): Cart {
    c.(total := SumSubtotals(c.lines))
  }

  /** The pre-save hook: a left-to-right reduction over the lines starting
      from 0, agreeing with the sum of subtotals whatever total was stored. */
  method PreSave(c: Cart) returns (r: Cart)
    ensures r.owner == c.owner && r.lines == c.lines
    ensures r.total == SumSubtotals(c.lines)
    ensures |c.lines| == 0 ==> r.total == 0
  {
    var sum := 0;
    var i := 0;
    while i < |c.lines|
      invariant 0 <= i <= |c.lines|
      invariant sum == SumSubtotals(c.lines[..i])
    {
      SumSubtotalsAppend(c.lines[..i], [c.lines[i]]);
      assert c.lines[..i + 1] == c.lines[..i] + [c.lines[i]];
      sum := sum + c.lines[i].subtotal;
      i := i + 1;
    }
    assert c.lines[..i] == c.lines;
    r := c.(total := sum);
  }

  // ---------------------------------------------------------------------------
  // Cart invariants
  // ---------------------------------------------------------------------------

  /** At most one line per product. */
  predicate DistinctProducts(lines: seq<CartLine>) {
    forall i, j :: 0 <= i < j < |lines| ==> lines[i].product != lines[j].product
  }

  /** Every line asks for at least one unit (the schema's minimum). */
  predicate QuantitiesPositive(lines: seq<CartLine>) {
    forall i :: 0 <= i < |lines| ==> lines[i].qty >= 1
  }

  predicate CartSound(c: Cart) {
    && QuantitiesPositive(c.lines)
    && DistinctProducts(c.lines)
    && c.total == SumSubtotals(c.lines)
  }

  /** Every stored cart is filed under its owner and is sound. */
  predicate CartsSound(carts: map<UserId, Cart>) {
    forall u :: u in carts ==> carts[u].owner == u && CartSound(carts[u])
  }

  // ---------------------------------------------------------------------------
  // Line search and removal
  // ---------------------------------------------------------------------------

  /** The position of the first line for `p`, or -1 (`findIndex`). */
  function IndexOfProduct(lines: seq<CartLine>, p: ProductId): (k: int)
    ensures -1 <= k < |lines|
    ensures k >= 0 ==> lines[k].product == p && forall i :: 0 <= i < k ==> lines[i].product != p
    ensures k == -1 <==> forall i :: 0 <= i < |lines| ==> lines[i].product != p
  {
    if |lines| == 0 then -1
    else if lines[0].product == p then 0
    else
      var k := IndexOfProduct(lines[1..], p);
      if k < 0 then -1 else k + 1
  }

  /** The lines that are not for `p`, in their original order (`filter`). */
  function WithoutProduct(lines: seq<CartLine>, p: ProductId): seq<CartLine> {
    if |lines| == 0 then []
    else if lines[0].product == p then WithoutProduct(lines[1..], p)
    else [lines[0]] + WithoutProduct(lines[1..], p)
  }

  /** The kept lines are exactly the lines not for `p`; the length drops
      exactly when some line was for `p`; one line per product survives. */
  lemma {:induction false} WithoutProductKeeps(lines: seq<CartLine>, p: ProductId)
    ensures forall l :: l in WithoutProduct(lines, p) <==> l in lines && l.product != p
    ensures |WithoutProduct(lines, p)| <= |lines|
    ensures |WithoutProduct(lines, p)| == |lines| <==> forall i :: 0 <= i < |lines| ==> lines[i].product != p
    ensures DistinctProducts(lines) ==> DistinctProducts(WithoutProduct(lines, p))
  {
    if |lines| > 0 {
      var rest := WithoutProduct(lines[1..], p);
      WithoutProductKeeps(lines[1..], p);
      assert forall l :: l in lines <==> l == lines[0] || l in lines[1..];
      if lines[0].product != p {
        assert DistinctProducts(lines) ==> forall j :: 0 <= j < |rest| ==> rest[j].product != lines[0].product by {
          if DistinctProducts(lines) {
            forall j | 0 <= j < |rest|
              ensures rest[j].product != lines[0].product
            {
              assert rest[j] in lines[1..];
              var k :| 0 <= k < |lines[1..]| && lines[1..][k] == rest[j];
              assert lines[k + 1] == rest[j];
            }
          }
        }
      }
      if DistinctProducts(lines) {
        assert DistinctProducts(lines[1..]);
      }
      if forall i :: 0 <= i < |lines| ==> lines[i].product != p {
        assert forall i :: 0 <= i < |lines[1..]| ==> lines[1..][i].product != p;
      }
    }
  }

  /** Filtering distributes over concatenation; with the singleton case
      below this fixes the result as the kept lines in their original order. */
  lemma {:induction false} WithoutProductAppend(a: seq<CartLine>, b: seq<CartLine>, p: ProductId)
    ensures WithoutProduct(a + b, p) == WithoutProduct(a, p) + WithoutProduct(b, p)
  {
    if |a| == 0 {
      assert a + b == b;
    } else {
      assert (a + b)[1..] == a[1..] + b;
      WithoutProductAppend(a[1..], b, p);
    }
  }

  /** A single line is kept exactly when it is not for `p`. */
  lemma WithoutProductSingleton(l: CartLine, p: ProductId)
    ensures WithoutProduct([l], p) == if l.product == p then [] else [l]
  {
    assert [l][1..] == [];
  }

  // ---------------------------------------------------------------------------
  // Handlers
  // ---------------------------------------------------------------------------

  /** The user's cart, or a fresh empty one (total 0) when they have none. */
  function CartOrEmpty(s: Store, u: UserId): (c: Cart)
    ensures u !in s.carts ==> c.owner == u && c.lines == [] && c.total == 0
  {
    if u in s.carts then s.carts[u] else Cart(u, [], 0)
  }

  /** The quantity of `p` already in the user's cart (0 when absent). */
  function QtyInCart(s: Store, u: UserId, p: ProductId): int {
    var c := CartOrEmpty(s, u);
    var k := IndexOfProduct(c.lines, p);
    if k >= 0 then c.lines[k].qty else 0
  }

  /** Viewing the cart: an existing cart is returned as is; otherwise an
      empty cart with total 0 is created and stored for the user. */
  function GetCart(s: Store, u: UserId): (r: (Store, Cart))
    ensures r.0.carts.Keys == s.carts.Keys + {u}
    ensures u in r.0.carts && r.0.carts[u] == r.1 && r.1.owner == (if u in s.carts then s.carts[u].owner else u)
    ensures u in s.carts ==> r.0 == s
    ensures u !in s.carts ==> r.1.lines == [] && r.1.total == 0
    ensures r.0 == s.(carts := r.0.carts)
    ensures forall v :: v in s.carts ==> r.0.carts[v] == s.carts[v]
    ensures CartsSound(s.carts) ==> CartsSound(r.0.carts)
    ensures IdsBelowNext(s) ==> IdsBelowNext(r.0)
  {
    if u in s.carts then (s, s.carts[u])
    else
      var c := Saved(Cart(u, [], 0));
      (s.(carts := s.carts[u := c]), c)
  }

  /** `lines` with the line at `k` raised by `q` units and its subtotal
      re-priced at `price`; the unit price recorded on the line is kept. */
  function RaiseLine(lines: seq<CartLine>, k: nat, q: int, price: int): (r: seq<CartLine>)
    requires k < |lines|
    ensures |r| == |lines|
    ensures forall i :: 0 <= i < |r| ==> r[i].product == lines[i].product
    ensures r[k].qty == lines[k].qty + q && r[k].unitPrice == lines[k].unitPrice
    ensures r[k].subtotal == r[k].qty * price
    ensures forall i :: 0 <= i < |r| && i != k ==> r[i] == lines[i]
  {
    var merged := lines[k].qty + q;
    lines[k := lines[k].(qty := merged, subtotal := merged * price)]
  }

  /** Storing a sound cart under its owner keeps every cart sound, and a cart
      naming only allocated products keeps every id below the counter. */
  lemma PutCartKeepsInvariants(s: Store, u: UserId, c: Cart)
    ensures CartsSound(s.carts) && c.owner == u && CartSound(c) ==> CartsSound(s.carts[u := c])
    ensures IdsBelowNext(s) && (forall i :: 0 <= i < |c.lines| ==> c.lines[i].product < s.nextId) ==>
              IdsBelowNext(s.(carts := s.carts[u := c]))
  {
  }

  /** The effect of a successful add of `q` units of product `p`: a line
      for a product already in the cart is merged, otherwise one is appended,
      and the cart is saved. */
  function AddLine(s: Store, u: UserId, p: ProductId, q: int): (r: Store)
    requires p in s.products
    ensures r == s.(carts := r.carts)
    ensures r.carts.Keys == s.carts.Keys + {u}
    ensures forall v :: v in s.carts && v != u ==> r.carts[v] == s.carts[v]
    ensures r.carts[u].owner == CartOrEmpty(s, u).owner
    ensures r.carts[u].total == SumSubtotals(r.carts[u].lines)
    // A product not yet in the cart gets exactly one new line at the end,
    // priced at the current price; the lines already there are untouched.
    ensures IndexOfProduct(CartOrEmpty(s, u).lines, p) == -1 ==>
              r.carts[u].lines ==
                CartOrEmpty(s, u).lines + [CartLine(p, q, s.products[p].price, q * s.products[p].price)]
    // A product already in the cart has that line's quantity raised to the
    // merged quantity and its subtotal re-priced at the current price, while
    // the unit price recorded when the line was created is kept.
    ensures var was := CartOrEmpty(s, u).lines;
            var k := IndexOfProduct(was, p);
            var now := r.carts[u].lines;
            k >= 0 ==>
              && |now| == |was|
              && now[k].product == p
              && now[k].qty == was[k].qty + q
              && now[k].subtotal == now[k].qty * s.products[p].price
              && now[k].unitPrice == was[k].unitPrice
              && forall i :: 0 <= i < |was| && i != k ==> now[i] == was[i]
  {
    var price := s.products[p].price;
    var cart := CartOrEmpty(s, u);
    var k := IndexOfProduct(cart.lines, p);
    var lines := if k >= 0 then RaiseLine(cart.lines, k, q, price)
                 else cart.lines + [CartLine(p, q, price, q * price)];
    s.(carts := s.carts[u := Saved(cart.(lines := lines))])
  }

  /** Every cart stays filed under its owner with quantities of at least 1,
      one line per product and the total equal to the sum of subtotals. */
  lemma AddLineKeepsCartsSound(s: Store, u: UserId, p: ProductId, q: int)
    requires p in s.products
    ensures q >= 1 && CartsSound(s.carts) ==> CartsSound(AddLine(s, u, p, q).carts)
  {
    if q >= 1 && CartsSound(s.carts) {
      var r := AddLine(s, u, p, q);
      assert CartSound(CartOrEmpty(s, u));
      AddLineKeepsCartSound(s, u, p, q);
      PutCartKeepsInvariants(s, u, r.carts[u]);
      assert r.carts == s.carts[u := r.carts[u]];
    }
  }

  /** The user's own cart stays sound after an add of at least one unit. */
  lemma AddLineKeepsCartSound(s: Store, u: UserId, p: ProductId, q: int)
    requires p in s.products
    ensures q >= 1 && CartSound(CartOrEmpty(s, u)) ==> CartSound(AddLine(s, u, p, q).carts[u])
  {
  }

  /** Every cart line still names an allocated product. */
  lemma AddLineKeepsIds(s: Store, u: UserId, p: ProductId, q: int)
    requires p in s.products
    ensures IdsBelowNext(s) ==> IdsBelowNext(AddLine(s, u, p, q))
  {
    if IdsBelowNext(s) {
      var r := AddLine(s, u, p, q);
      var was := CartOrEmpty(s, u).lines;
      var now := r.carts[u].lines;
      assert forall i :: 0 <= i < |now| ==> now[i].product == p || (i < |was| && now[i].product == was[i].product);
      PutCartKeepsInvariants(s, u, r.carts[u]);
      assert r == s.(carts := s.carts[u := r.carts[u]]);
    }
  }

  /** Dropping the lines for `p` from a stored cart and saving it keeps every
      cart sound and every cart line's product below the counter. */
  lemma DropLinesKeepsInvariants(s: Store, u: UserId, p: ProductId)
    requires u in s.carts
    ensures var c := Saved(s.carts[u].(lines := WithoutProduct(s.carts[u].lines, p)));
            && (CartsSound(s.carts) ==> CartsSound(s.carts[u := c]))
            && (IdsBelowNext(s) ==> IdsBelowNext(s.(carts := s.carts[u := c])))
  {
    var was := s.carts[u].lines;
    var kept := WithoutProduct(was, p);
    var c := Saved(s.carts[u].(lines := kept));
    WithoutProductKeeps(was, p);
    forall i | 0 <= i < |kept|
      ensures exists j :: 0 <= j < |was| && was[j] == kept[i]
    {
      assert kept[i] in was;
    }
    PutCartKeepsInvariants(s, u, c);
  }

  /** Adding `qty` units (default 1) of the product named `name`. */
  function AddToCart(s: Store, u: UserId, name: string, qty: Option<int>): (r: Result<Store>)
    ensures qty.ValueOr(1) < 1 ==> r == Err(QuantityBelowOne)
    ensures qty.ValueOr(1) >= 1 && FindProductByName(s.products, name).None? ==> r == Err(NotFound(ProductEntity))
    ensures qty.ValueOr(1) >= 1 && FindProductByName(s.products, name).Some? ==>
              var p := FindProductByName(s.products, name).value;
              var q := qty.ValueOr(1);
              var stock := s.products[p].stock;
              && (stock < q ==> r == Err(InsufficientStock(stock)))
              && (stock >= q && stock < QtyInCart(s, u, p) + q ==> r == Err(InsufficientStock(stock)))
    ensures r.Ok? <==>
              && qty.ValueOr(1) >= 1
              && FindProductByName(s.products, name).Some?
              && var p := FindProductByName(s.products, name).value;
                 s.products[p].stock >= qty.ValueOr(1) &&
                 s.products[p].stock >= QtyInCart(s, u, p) + qty.ValueOr(1)
    ensures r.Ok? ==> r.value == AddLine(s, u, FindProductByName(s.products, name).value, qty.ValueOr(1))
    ensures r.Ok? && CartsSound(s.carts) ==> CartsSound(r.value.carts)
    ensures r.Ok? && IdsBelowNext(s) ==> IdsBelowNext(r.value)
  {
    var q := qty.ValueOr(1);
    if q < 1 then Err(QuantityBelowOne)
    else
      match FindProductByName(s.products, name)
      case None => Err(NotFound(ProductEntity))
      case Some(pid) =>
        var stock := s.products[pid].stock;
        if stock < q then Err(InsufficientStock(stock))
        else if stock < QtyInCart(s, u, pid) + q then Err(InsufficientStock(stock))
        else
          AddLineKeepsCartsSound(s, u, pid, q);
          AddLineKeepsIds(s, u, pid, q);
          Ok(AddLine(s, u, pid, q))
  }

  /** Setting the quantity (at least 1) and subtotal of one line of a stored
      cart and saving it keeps every cart sound and every cart line's product
      below the counter. */
  lemma SetLineKeepsInvariants(s: Store, u: UserId, k: nat, qty: int, price: int)
    requires u in s.carts && k < |s.carts[u].lines|
    ensures var was := s.carts[u].lines;
            var c := Saved(s.carts[u].(lines := was[k := was[k].(qty := qty, subtotal := qty * price)]));
            && (qty >= 1 && CartsSound(s.carts) ==> CartsSound(s.carts[u := c]))
            && (IdsBelowNext(s) ==> IdsBelowNext(s.(carts := s.carts[u := c])))
  {
  }

  /** Setting the quantity of a product already in the cart. */
  function UpdateQuantity(s: Store, u: UserId, name: string, qty: int): (r: Result<Store>)
    ensures qty < 1 ==> r == Err(QuantityBelowOne)
    ensures qty >= 1 && u !in s.carts ==> r == Err(NotFound(CartEntity))
    ensures qty >= 1 && u in s.carts && FindProductByName(s.products, name).None? ==>
              r == Err(NotFound(ProductEntity))
    ensures qty >= 1 && u in s.carts && FindProductByName(s.products, name).Some? ==>
              var p := FindProductByName(s.products, name).value;
              var stock := s.products[p].stock;
              && (stock < qty ==> r == Err(InsufficientStock(stock)))
              && (stock >= qty && IndexOfProduct(s.carts[u].lines, p) == -1 ==> r == Err(NotFound(CartLineEntity)))
    ensures r.Ok? <==>
              && qty >= 1
              && u in s.carts
              && FindProductByName(s.products, name).Some?
              && var p := FindProductByName(s.products, name).value;
                 s.products[p].stock >= qty && IndexOfProduct(s.carts[u].lines, p) >= 0
    ensures r.Ok? ==> r.value == s.(carts := r.value.carts)
    ensures r.Ok? ==> r.value.carts.Keys == s.carts.Keys
    ensures r.Ok? ==> forall v :: v in s.carts && v != u ==> r.value.carts[v] == s.carts[v]
    ensures r.Ok? ==> r.value.carts[u].total == SumSubtotals(r.value.carts[u].lines)
    // Only that product's line changes: its quantity becomes the requested
    // one and its subtotal is re-priced at the current price.
    ensures r.Ok? ==>
              var p := FindProductByName(s.products, name).value;
              var was := s.carts[u].lines;
              var k := IndexOfProduct(was, p);
              var now := r.value.carts[u].lines;
              && r.value.carts[u].owner == s.carts[u].owner
              && |now| == |was|
              && now[k] == was[k].(qty := qty, subtotal := qty * s.products[p].price)
              && forall i :: 0 <= i < |was| && i != k ==> now[i] == was[i]
    // Every cart stays filed under its owner with quantities of at least 1,
    // one line per product and the total equal to the sum of subtotals.
    ensures r.Ok? && CartsSound(s.carts) ==> CartsSound(r.value.carts)
    ensures r.Ok? && IdsBelowNext(s) ==> IdsBelowNext(r.value)
  {
    if qty < 1 then Err(QuantityBelowOne)
    else if u !in s.carts then Err(NotFound(CartEntity))
    else
      match FindProductByName(s.products, name)
      case None => Err(NotFound(ProductEntity))
      case Some(pid) =>
        var p := s.products[pid];
        if p.stock < qty then Err(InsufficientStock(p.stock))
        else
          var cart := s.carts[u];
          var k := IndexOfProduct(cart.lines, pid);
          if k < 0 then Err(NotFound(CartLineEntity))
          else
            var line := cart.lines[k].(qty := qty, subtotal := qty * p.price);
            SetLineKeepsInvariants(s, u, k, qty, p.price);
            Ok(s.(carts := s.carts[u := Saved(cart.(lines := cart.lines[k := line]))]))
  }

  /** Removing every line for the product named `name`. */
  function RemoveFromCart(s: Store, u: UserId, name: string): (r: Result<Store>)
    ensures u !in s.carts ==> r == Err(NotFound(CartEntity))
    ensures u in s.carts && FindProductByName(s.products, name).None? ==> r == Err(NotFound(ProductEntity))
    ensures u in s.carts && FindProductByName(s.products, name).Some? &&
            (forall i :: 0 <= i < |s.carts[u].lines| ==> s.carts[u].lines[i].product != FindProductByName(s.products, name).value) ==>
              r == Err(NotFound(CartLineEntity))
    ensures r.Ok? <==>
              && u in s.carts
              && FindProductByName(s.products, name).Some?
              && exists i :: 0 <= i < |s.carts[u].lines| &&
                   s.carts[u].lines[i].product == FindProductByName(s.products, name).value
    ensures r.Ok? ==>
              var p := FindProductByName(s.products, name).value;
              && r.value == s.(carts := r.value.carts)
              && r.value.carts.Keys == s.carts.Keys
              && (forall v :: v in s.carts && v != u ==> r.value.carts[v] == s.carts[v])
              && r.value.carts[u].owner == s.carts[u].owner
              && r.value.carts[u].lines == WithoutProduct(s.carts[u].lines, p)
              && |r.value.carts[u].lines| < |s.carts[u].lines|
              && r.value.carts[u].total == SumSubtotals(r.value.carts[u].lines)
    // Every cart stays filed under its owner with quantities of at least 1,
    // one line per product and the total equal to the sum of subtotals.
    ensures r.Ok? && CartsSound(s.carts) ==> CartsSound(r.value.carts)
    ensures r.Ok? && IdsBelowNext(s) ==> IdsBelowNext(r.value)
  {
    if u !in s.carts then Err(NotFound(CartEntity))
    else
      match FindProductByName(s.products, name)
      case None => Err(NotFound(ProductEntity))
      case Some(pid) =>
        var cart := s.carts[u];
        var kept := WithoutProduct(cart.lines, pid);
        WithoutProductKeeps(cart.lines, pid);
        if |kept| == |cart.lines| then Err(NotFound(CartLineEntity))
        else
          DropLinesKeepsInvariants(s, u, pid);
          Ok(s.(carts := s.carts[u := Saved(cart.(lines := kept))]))
  }

  /** Emptying the cart: no lines, total 0. */
  function ClearCart(s: Store, u: UserId): (r: Result<Store>)
    ensures r.Err? <==> u !in s.carts
    ensures r.Err? ==> r.error == NotFound(CartEntity)
    ensures r.Ok? ==>
              && r.value == s.(carts := r.value.carts)
              && r.value.carts.Keys == s.carts.Keys
              && (forall v :: v in s.carts && v != u ==> r.value.carts[v] == s.carts[v])
              && r.value.carts[u].owner == s.carts[u].owner
              && r.value.carts[u].lines == []
              && r.value.carts[u].total == 0
    ensures r.Ok? && CartsSound(s.carts) ==> CartsSound(r.value.carts)
    ensures r.Ok? && IdsBelowNext(s) ==> IdsBelowNext(r.value)
  {
    if u !in s.carts then Err(NotFound(CartEntity))
    else Ok(s.(carts := s.carts[u := Saved(s.carts[u].(lines := [], total := 0))]))
  }
}
