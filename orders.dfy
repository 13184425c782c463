/** Orders: pricing a request's items at live catalogue prices, and which
    orders a caller may see, newest first. */
module Orders {
  import opened Common
  import opened Models
  import opened Access
  import Catalog
  import Carts

  /** The 404 that names an item whose product is missing or unavailable. */
  function MissingProduct(productId: string): Error {
    NotFound("Product " + productId + " not found")
  }

  /** Index of the first item whose product is missing or unavailable. */
  function FirstUnavailable(products: seq<Product>, items: seq<OrderItem>): (k: Option<nat>)
    ensures k.Some? ==> k.value < |items| && Catalog.FindAvailable(products, items[k.value].productId).None?
    ensures k.Some? ==> forall j :: 0 <= j < k.value ==> Catalog.FindAvailable(products, items[j].productId).Some?
    ensures k.None? <==> forall j :: 0 <= j < |items| ==> Catalog.FindAvailable(products, items[j].productId).Some?
  {
    if items == [] then None
    else if Catalog.FindAvailable(products, items[0].productId).None? then Some(0)
    else
      var k := FirstUnavailable(products, items[1..]);
      assert forall j :: 1 <= j < |items| ==> items[j] == items[1..][j - 1];
      match k
      case Some(i) => Some(i + 1)
      case None => None
  }

  /** The items' cost at live catalogue prices; a client-supplied price plays no part. */
  function LiveTotal(products: seq<Product>, items: seq<OrderItem>): int
    decreases |items|
  {
    if items == [] then 0
    else
      var last := items[|items| - 1];
      LiveTotal(products, items[..|items| - 1]) + Catalog.LineCost(products, last.productId, last.quantity)
  }

  /** The outcome of pricing an order: the live total when every item's
      product is available, otherwise the 404 naming the first item that is not. */
  function PriceOrder(products: seq<Product>, items: seq<OrderItem>): (r: Result<int>)
    ensures r.Ok? <==> forall j :: 0 <= j < |items| ==> Catalog.FindAvailable(products, items[j].productId).Some?
    ensures r.Ok? ==> r.value == LiveTotal(products, items)
    ensures r.Err? ==> exists k :: (
      && 0 <= k < |items|
      && Catalog.FindAvailable(products, items[k].productId).None?
      && (forall j :: 0 <= j < k ==> Catalog.FindAvailable(products, items[j].productId).Some?)
      && r.error == MissingProduct(items[k].productId))
  {
    match FirstUnavailable(products, items)
    case Some(k) => Err(MissingProduct(items[k].productId))
    case None => Ok(LiveTotal(products, items))
  }

  /** The loop of `create_order` that looks every item up and adds up the total. */
  method ComputeTotal(products: seq<Product>, items: seq<OrderItem>) returns (r: Result<int>)
    ensures r == PriceOrder(products, items)
  {
    var total := 0;
    var i := 0;
    while i < |items|
      invariant 0 <= i <= |items|
      invariant forall j :: 0 <= j < i ==> Catalog.FindAvailable(products, items[j].productId).Some?
      invariant total == LiveTotal(products, items[..i])
    {
      var product := Catalog.FindAvailable(products, items[i].productId);
      if product.None? {
        assert FirstUnavailable(products, items) == Some(i);
        return Err(MissingProduct(items[i].productId));
      }
      assert items[..i + 1][..i] == items[..i];
      total := total + product.value.price * items[i].quantity;
      i := i + 1;
    }
    assert items[..i] == items;
    r := Ok(total);
  }

  /** Items that agree on product and quantity cost the same, whatever prices the client put in them. */
  lemma {:induction false} LiveTotalIgnoresClientPrice(products: seq<Product>, a: seq<OrderItem>, b: seq<OrderItem>)
    requires |a| == |b|
    requires forall j :: 0 <= j < |a| ==> a[j].productId == b[j].productId && a[j].quantity == b[j].quantity
    ensures LiveTotal(products, a) == LiveTotal(products, b)
    decreases |a|
  {
    if a != [] {
      LiveTotalIgnoresClientPrice(products, a[..|a| - 1], b[..|b| - 1]);
    }
  }

  /** Pricing an order depends only on each item's product and quantity: the
      client's prices change neither the total nor which product is reported missing. */
  lemma {:induction false} ClientPriceIgnored(products: seq<Product>, a: seq<OrderItem>, b: seq<OrderItem>)
    requires |a| == |b|
    requires forall j :: 0 <= j < |a| ==> a[j].productId == b[j].productId && a[j].quantity == b[j].quantity
    ensures PriceOrder(products, a) == PriceOrder(products, b)
  {
    LiveTotalIgnoresClientPrice(products, a, b);
    assert forall j :: 0 <= j < |a| ==>
      Catalog.FindAvailable(products, a[j].productId) == Catalog.FindAvailable(products, b[j].productId);
  }

  /** A cart's lines as order items carrying no client price. */
  function AsOrderItems(items: seq<CartItem>): (r: seq<OrderItem>)
    ensures |r| == |items|
    ensures forall j :: 0 <= j < |r| ==> r[j] == OrderItem(items[j].productId, items[j].quantity, None)
  {
    seq(|items|, j requires 0 <= j < |items| => OrderItem(items[j].productId, items[j].quantity, None))
  }

  /** Ordering exactly the cart's lines costs what the cart view shows as its
      total, as long as every product in the cart is still available. */
  lemma {:induction false} CheckoutMatchesCart(products: seq<Product>, items: seq<CartItem>)
    requires forall j :: 0 <= j < |items| ==> Catalog.FindAvailable(products, items[j].productId).Some?
    ensures PriceOrder(products, AsOrderItems(items)) == Ok(Carts.LiveCost(products, items))
    decreases |items|
  {
    if items != [] {
      var init := items[..|items| - 1];
      CheckoutMatchesCart(products, init);
      assert AsOrderItems(items)[..|items| - 1] == AsOrderItems(init);
    }
  }

  /** The orders placed by `userId`, in stored order. */
  function OrdersOf(orders: seq<Order>, userId: string): (r: seq<Order>)
    ensures forall o :: o in r <==> o in orders && o.userId == userId
  {
    if orders == [] then []
    else
      var rest := OrdersOf(orders[1..], userId);
      assert forall o :: o in orders <==> o == orders[0] || o in orders[1..];
      if orders[0].userId == userId then [orders[0]] + rest else rest
  }

  /** No two stored orders share an id (ids are fresh uuids). */
  predicate IdsUnique(orders: seq<Order>) {
    forall i, j :: 0 <= i < j < |orders| ==> orders[i].id != orders[j].id
  }

  /** Orders placed in time order: creation times never decrease along the collection. */
  predicate Chronological(orders: seq<Order>) {
    forall i, j :: 0 <= i < j < |orders| ==> orders[i].createdAt <= orders[j].createdAt
  }

  /** A caller's own orders keep the time order of the collection. */
  lemma {:induction false} OrdersOfChronological(orders: seq<Order>, userId: string)
    requires Chronological(orders)
    ensures Chronological(OrdersOf(orders, userId))
  {
    if orders != [] {
      var tail := orders[1..];
      assert forall j :: 0 <= j < |tail| ==> tail[j] == orders[j + 1];
      OrdersOfChronological(tail, userId);
      var rest := OrdersOf(tail, userId);
      if orders[0].userId == userId {
        var r := [orders[0]] + rest;
        forall j | 1 <= j < |r| ensures r[0].createdAt <= r[j].createdAt {
          assert r[j] in rest;
          var m :| 0 <= m < |tail| && tail[m] == r[j];
        }
        assert forall j :: 1 <= j < |r| ==> r[j] == rest[j - 1];
      }
    }
  }

  /** The orders from the latest stored to the earliest. */
  function NewestFirst(orders: seq<Order>): (r: seq<Order>)
    ensures |r| == |orders|
    ensures forall k :: 0 <= k < |r| ==> r[k] == orders[|orders| - 1 - k]
  {
    if orders == [] then []
    else [orders[|orders| - 1]] + NewestFirst(orders[..|orders| - 1])
  }

  /** At most this many orders are returned by the order list. */
  const OrderListCap: nat := 100

  /** The orders `caller` may see: all of them for an admin, their own otherwise. */
  function Visible(orders: seq<Order>, caller: User): seq<Order> {
    if SeesAllOrders(caller.role) then orders else OrdersOf(orders, caller.id)
  }

  /** The order list: the visible orders, newest first, capped at 100. */
  function OrderList(orders: seq<Order>, caller: User): seq<Order> {
    Catalog.Page(NewestFirst(Visible(orders, caller)), 0, OrderListCap)
  }

  /** The order list holds at most 100 stored orders, and a non-admin gets only their own. */
  lemma {:induction false} OrderListSound(orders: seq<Order>, caller: User)
    ensures |OrderList(orders, caller)| <= OrderListCap
    ensures forall o :: o in OrderList(orders, caller) ==> o in orders
    ensures caller.role != Admin ==> forall o :: o in OrderList(orders, caller) ==> o.userId == caller.id
  {
    var visible := Visible(orders, caller);
    var list := OrderList(orders, caller);
    forall o | o in list ensures o in visible {
      var i :| 0 <= i < |list| && list[i] == o;
      assert list[i] == visible[|visible| - 1 - i];
    }
  }

  /** When at most 100 orders are visible, every one of them is listed. */
  lemma {:induction false} OrderListComplete(orders: seq<Order>, caller: User)
    requires |Visible(orders, caller)| <= OrderListCap
    ensures forall o :: o in Visible(orders, caller) ==> o in OrderList(orders, caller)
  {
    var visible := Visible(orders, caller);
    var list := OrderList(orders, caller);
    forall o | o in visible ensures o in list {
      var i :| 0 <= i < |visible| && visible[i] == o;
      assert list[|visible| - 1 - i] == o;
    }
  }

  /** When orders were stored in time order, the order list runs from the
      newest creation time to the oldest. */
  lemma {:induction false} OrderListNewestFirst(orders: seq<Order>, caller: User)
    requires Chronological(orders)
    ensures forall i, j :: 0 <= i < j < |OrderList(orders, caller)| ==>
      OrderList(orders, caller)[i].createdAt >= OrderList(orders, caller)[j].createdAt
  {
    var visible := Visible(orders, caller);
    var list := OrderList(orders, caller);
    if caller.role != Admin {
      OrdersOfChronological(orders, caller.id);
    }
    assert Chronological(visible);
    forall i, j | 0 <= i < j < |list| ensures list[i].createdAt >= list[j].createdAt {
      assert list[i] == visible[|visible| - 1 - i];
      assert list[j] == visible[|visible| - 1 - j];
    }
  }

  /** The first order with id `id`, among `owner`'s orders when an owner is given. */
  function FindOrder(orders: seq<Order>, id: string, owner: Option<string>): (r: Option<Order>)
    ensures r.Some? ==> r.value in orders && r.value.id == id && (owner.Some? ==> r.value.userId == owner.value)
    ensures r.None? <==> forall j :: 0 <= j < |orders| ==>
      !(orders[j].id == id && (owner.None? || orders[j].userId == owner.value))
  {
    if orders == [] then None
    else if orders[0].id == id && (owner.None? || orders[0].userId == owner.value) then Some(orders[0])
    else
      var r := FindOrder(orders[1..], id, owner);
      assert forall j :: 1 <= j < |orders| ==> orders[j] == orders[1..][j - 1];
      r
  }
}
