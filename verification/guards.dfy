/** The order middlewares: a read-only stock check over requested items and
    the owner-or-administrator permission check on an order. */
module OrderGuards {
  import opened Base
  import opened Shop

  /** One requested item: a product id and a quantity. */
  datatype Item = Item(product: ProductId, qty: int)

  /** The item can be served: its product exists and has enough stock. */
  predicate Servable(ps: map<ProductId, Product>, it: Item) {
    it.product in ps && ps[it.product].stock >= it.qty
  }

  /** The failure the check reports for an unservable item. */
  function Complaint(ps: map<ProductId, Product>, it: Item): Error {
    if it.product !in ps then NotFound(ProductEntity) else InsufficientStock(ps[it.product].stock)
  }

  /** Item `k` is the first one that cannot be served. */
  predicate FirstUnservable(ps: map<ProductId, Product>, items: seq<Item>, k: int) {
    && 0 <= k < |items|
    && !Servable(ps, items[k])
    && forall i :: 0 <= i < k ==> Servable(ps, items[i])
  }

  /** Walks the items in order and stops at the first one whose product is
      missing (NotFound) or short (InsufficientStock, with the available
      stock).  The catalogue is only read. */
  method ValidateStock(ps: map<ProductId, Product>, items: seq<Item>) returns (r: Outcome)
    ensures r.Pass? <==> forall i :: 0 <= i < |items| ==> Servable(ps, items[i])
    ensures r.Fail? ==> exists k :: FirstUnservable(ps, items, k) && r.error == Complaint(ps, items[k])
  {
    var i := 0;
    while i < |items|
      invariant 0 <= i <= |items|
      invariant forall j :: 0 <= j < i ==> Servable(ps, items[j])
    {
      var it := items[i];
      if it.product !in ps {
        return Fail(NotFound(ProductEntity));
      }
      if ps[it.product].stock < it.qty {
        return Fail(InsufficientStock(ps[it.product].stock));
      }
      i := i + 1;
    }
    return Pass;
  }

  /** The order `id` as the actor may act on it: NotFound when absent,
      Forbidden unless the actor owns it or is an administrator. */
  function CheckOrderOwner(orders: map<OrderId, Order>, id: OrderId, actor: Actor): (r: Result<Order>)
    ensures id !in orders <==> r == Err(NotFound(OrderEntity))
    ensures id in orders ==> (r.Ok? <==> orders[id].owner == actor.id || IsAdmin(actor))
    ensures id in orders && r.Err? ==> r.error == Forbidden
    ensures r.Ok? ==> id in orders && r.value == orders[id]
  {
    if id !in orders then Err(NotFound(OrderEntity))
    else if orders[id].owner != actor.id && !IsAdmin(actor) then Err(Forbidden)
    else Ok(orders[id])
  }
}
