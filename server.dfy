/** The marketplace's request handlers over an in-memory store. Each handler
    first resolves the caller from the bearer token's subject (when the route
    needs one), then applies the request body's schema, then its own checks,
    in the order the server applies them. */
module Server {
  import opened Common
  import opened Models
  import opened Access
  import Users
  import Catalog
  import Carts
  import Orders

  /** A bearer token, reduced to the email its subject claim names. */
  datatype Token = Token(subject: string)

  /** The reply to a registration: a token for the new user and its public fields. */
  datatype AuthReply = AuthReply(accessToken: Token, tokenType: string, id: string, name: string, email: string, role: Role)

  /** The page size of the product listing when the request names none. */
  const DefaultLimit: nat := 50

  /** A query parameter's value, or its default when the request omits it. */
  function OrDefault(o: Option<nat>, default: nat): nat {
    if o.Some? then o.value else default
  }

  /** The counters of the statistics overview. */
  datatype Stats = Stats(totalProducts: nat, totalOrders: nat, totalUsers: nat)

  /** The number of products still available: none exactly when no product
      is available, all exactly when every product is. */
  function CountAvailable(products: seq<Product>): (n: nat)
    ensures n <= |products|
    ensures n == 0 <==> forall i :: 0 <= i < |products| ==> !products[i].isAvailable
    ensures n == |products| <==> forall i :: 0 <= i < |products| ==> products[i].isAvailable
  {
    if products == [] then 0
    else CountAvailable(products[1..]) + (if products[0].isAvailable then 1 else 0)
  }

  /** The number of active users: none exactly when no user is active, all
      exactly when every user is. */
  function CountActive(users: seq<User>): (n: nat)
    ensures n <= |users|
    ensures n == 0 <==> forall i :: 0 <= i < |users| ==> !users[i].isActive
    ensures n == |users| <==> forall i :: 0 <= i < |users| ==> users[i].isActive
  {
    if users == [] then 0
    else CountActive(users[1..]) + (if users[0].isActive then 1 else 0)
  }

  /** Creating a product, which starts available, adds one to the available count. */
  lemma {:induction false} CountAvailableAppend(products: seq<Product>, p: Product)
    ensures CountAvailable(products + [p]) == CountAvailable(products) + (if p.isAvailable then 1 else 0)
    decreases |products|
  {
    if products != [] {
      assert (products + [p])[1..] == products[1..] + [p];
      CountAvailableAppend(products[1..], p);
    }
  }

  /** Registering a user, who starts active, adds one to the active count. */
  lemma {:induction false} CountActiveAppend(users: seq<User>, u: User)
    ensures CountActive(users + [u]) == CountActive(users) + (if u.isActive then 1 else 0)
    decreases |users|
  {
    if users != [] {
      assert (users + [u])[1..] == users[1..] + [u];
      CountActiveAppend(users[1..], u);
    }
  }

  /** Deleting an available product, which marks it unavailable, removes one
      from the available count. */
  lemma {:induction false} CountAvailableAfterDelete(products: seq<Product>, k: nat)
    requires k < |products| && products[k].isAvailable
    ensures CountAvailable(products[k := products[k].(isAvailable := false)]) == CountAvailable(products) - 1
    decreases |products|
  {
    var after := products[k := products[k].(isAvailable := false)];
    if k == 0 {
      assert after[1..] == products[1..];
    } else {
      assert after[1..] == products[1..][k - 1 := products[k].(isAvailable := false)];
      CountAvailableAfterDelete(products[1..], k - 1);
    }
  }

  /** The categories endpoint: six distinct names, exactly the categories the
      product schema accepts, in the schema's order. */
  function GetCategories(): (r: seq<string>)
    ensures |r| == 6
    ensures forall i, j :: 0 <= i < j < |r| ==> r[i] != r[j]
    ensures forall c :: c in r <==> c in Categories
    ensures r == Categories
  {
    ["Clothing", "Toys", "Books", "Electronics", "Sports", "Other"]
  }

  class Store {
    var users: seq<User>
    var products: seq<Product>
    var carts: map<string, Cart>
    var orders: seq<Order>

    /** What every handler preserves: user, product and order ids are unique,
        emails are unique, every stored product satisfies the product schema,
        and each cart is filed under its own user and has one line per product
        with a positive quantity. */
    ghost predicate Valid()
      reads this
    {
      && Users.IdsUnique(users)
      && Catalog.IdsUnique(products)
      && Orders.IdsUnique(orders)
      && Users.EmailsUnique(users)
      && (forall i :: 0 <= i < |products| ==> Catalog.Listable(products[i]))
      && (forall uid :: uid in carts ==> carts[uid].userId == uid && Carts.WellFormed(carts[uid].items))
    }

    constructor ()
      ensures Valid()
      ensures users == [] && products == [] && carts == map[] && orders == []
    {
      users := [];
      products := [];
      carts := map[];
      orders := [];
    }

    /** The caller named by the token's subject: 401 when the token yields no
        subject, 401 again when no stored user has that email. */
    function CurrentUser(subject: Option<string>): (r: Result<User>)
      reads this`users
      ensures subject.None? ==> r == Err(Unauthorized("Invalid authentication credentials"))
      ensures subject.Some? ==> (r.Ok? <==> exists i :: 0 <= i < |users| && users[i].email == subject.value)
      ensures subject.Some? && r.Err? ==> r == Err(Unauthorized("User not found"))
      ensures r.Ok? ==> subject.Some? && r.value in users && r.value.email == subject.value
    {
      match subject
      case None => Err(Unauthorized("Invalid authentication credentials"))
      case Some(email) =>
        match Users.FindByEmail(users, email)
        case Some(u) => Ok(u)
        case None => Err(Unauthorized("User not found"))
    }

    /** Registration: 422 for a body the schema refuses, 400 for an email that
        is already stored; otherwise the new user is appended (active, with the
        requested or default role) and its email now authenticates exactly it. */
    method Register(body: UserCreate, newId: string, now: int) returns (r: Result<AuthReply>)
      requires Valid()
      requires forall i :: 0 <= i < |users| ==> users[i].id != newId
      modifies this
      ensures Valid()
      ensures products == old(products) && carts == old(carts) && orders == old(orders)
      ensures ValidateUserCreate(body).Err? ==> r == Err(Unprocessable)
      ensures ValidateUserCreate(body).Ok? && Users.FindByEmail(old(users), body.email).Some? ==>
        r == Err(BadRequest("Email already registered"))
      ensures r.Ok? <==> ValidateUserCreate(body).Ok? && Users.FindByEmail(old(users), body.email).None?
      ensures r.Err? ==> users == old(users)
      ensures r.Ok? ==>
        && r.value == AuthReply(Token(body.email), "bearer", newId, body.name, body.email, ValidateUserCreate(body).value.role)
        && users == old(users) + [User(newId, body.name, body.email, r.value.role, now, true)]
        && CurrentUser(Some(body.email)) == Ok(users[|users| - 1])
        && CountActive(users) == CountActive(old(users)) + 1
    {
      var registration := ValidateUserCreate(body);
      if registration.Err? {
        return Err(Unprocessable);
      }
      if Users.FindByEmail(users, body.email).Some? {
        return Err(BadRequest("Email already registered"));
      }
      var reg := registration.value;
      var user := User(newId, reg.name, reg.email, reg.role, now, true);
      Users.AppendKeepsEmailsUnique(users, user);
      CountActiveAppend(users, user);
      users := users + [user];
      Users.EmailIdentifiesUser(users, |users| - 1);
      r := Ok(AuthReply(Token(user.email), "bearer", user.id, user.name, user.email, user.role));
    }

    /** The product listing: the available products that pass the given
        filters, in store order, `skip` (0 when absent) then `limit` (50 when
        absent), each with its donor's current name when the donor is found. */
    method GetProducts(f: Catalog.ListingParams, skip: Option<nat>, limit: Option<nat>) returns (r: seq<Product>)
      ensures var page := Catalog.Page(Catalog.FindAll(products, Catalog.QueryFor(f)),
                                       OrDefault(skip, 0), OrDefault(limit, DefaultLimit));
        |r| == |page| && forall i :: 0 <= i < |r| ==> r[i] == Catalog.Enrich(users, page[i])
      ensures limit.None? ==> |r| <= DefaultLimit
      ensures limit.Some? ==> |r| <= limit.value
    {
      var query := Catalog.QueryFor(f);
      var page := Catalog.Page(Catalog.FindAll(products, query), OrDefault(skip, 0), OrDefault(limit, DefaultLimit));
      r := Catalog.EnrichDonorNames(users, page);
    }

    /** One product: 404 unless some product with that id is still available;
        the first such product is returned with its donor's current name. */
    function GetProduct(productId: string): (r: Result<Product>)
      reads this`users, this`products
      ensures r.Ok? <==> exists i :: 0 <= i < |products| && products[i].id == productId && products[i].isAvailable
      ensures r.Ok? ==> r.value.id == productId && r.value.isAvailable
      ensures r.Ok? ==> exists i :: 0 <= i < |products| && r.value == Catalog.Enrich(users, products[i])
      ensures r.Ok? ==> r.value == Catalog.Enrich(users, Catalog.FindAvailable(products, productId).value)
      ensures r.Err? ==> r.error == NotFound("Product not found")
    {
      match Catalog.FindAvailable(products, productId)
      case Some(p) => Ok(Catalog.Enrich(users, p))
      case None => Err(NotFound("Product not found"))
    }

    /** Product creation: 422 for a refused body, 403 for a buyer; otherwise
        the product is appended with the caller as donor, whatever donor id the
        body names, and starts available. */
    method CreateProduct(subject: Option<string>, body: ProductCreate, newId: string, now: int) returns (r: Result<Product>)
      requires Valid()
      requires forall i :: 0 <= i < |products| ==> products[i].id != newId
      modifies this
      ensures Valid()
      ensures users == old(users) && carts == old(carts) && orders == old(orders)
      ensures CurrentUser(subject).Err? ==> r == Err(CurrentUser(subject).error)
      ensures CurrentUser(subject).Ok? && ValidateProductCreate(body).Err? ==> r == Err(Unprocessable)
      ensures CurrentUser(subject).Ok? && ValidateProductCreate(body).Ok? && !CanCreateProduct(CurrentUser(subject).value.role) ==>
        r == Err(Forbidden("Only donors can create products"))
      ensures r.Err? ==> products == old(products)
      ensures r.Ok? <==>
        CurrentUser(subject).Ok? && ValidateProductCreate(body).Ok? && CanCreateProduct(CurrentUser(subject).value.role)
      ensures r.Ok? ==>
        && CurrentUser(subject).Ok? && CanCreateProduct(CurrentUser(subject).value.role)
        && r.value == Catalog.NewProduct(body, newId, CurrentUser(subject).value, now)
        && r.value.donorId == CurrentUser(subject).value.id
        && r.value.donorName == CurrentUser(subject).value.name
        && r.value.isAvailable
        && products == old(products) + [r.value]
        && CountAvailable(products) == CountAvailable(old(products)) + 1
    {
      var caller := CurrentUser(subject);
      if caller.Err? {
        return Err(caller.error);
      }
      if ValidateProductCreate(body).Err? {
        return Err(Unprocessable);
      }
      if !CanCreateProduct(caller.value.role) {
        return Err(Forbidden("Only donors can create products"));
      }
      var product := Catalog.NewProduct(body, newId, caller.value, now);
      CountAvailableAppend(products, product);
      products := products + [product];
      r := Ok(product);
    }

    /** Product update: 404 when no product has the id (available or not),
        checked before the 403 for a caller who is neither admin nor the
        product's donor; otherwise the first product with the id takes the
        body's fields and keeps its donor, availability and everything else. */
    method UpdateProduct(subject: Option<string>, productId: string, body: ProductCreate) returns (r: Result<Product>)
      requires Valid()
      modifies this
      ensures Valid()
      ensures users == old(users) && carts == old(carts) && orders == old(orders)
      ensures CurrentUser(subject).Err? ==> r == Err(CurrentUser(subject).error)
      ensures CurrentUser(subject).Ok? && ValidateProductCreate(body).Err? ==> r == Err(Unprocessable)
      ensures CurrentUser(subject).Ok? && ValidateProductCreate(body).Ok? && Catalog.FindProduct(old(products), productId).None? ==>
        r == Err(NotFound("Product not found"))
      ensures CurrentUser(subject).Ok? && ValidateProductCreate(body).Ok? && Catalog.FindProduct(old(products), productId).Some? ==>
        var k := Catalog.FindProduct(old(products), productId).value;
        var caller := CurrentUser(subject).value;
        if CanModifyProduct(caller.role, caller.id, old(products)[k].donorId) then
          && products == old(products)[k := Catalog.Overwrite(old(products)[k], body)]
          && r == Ok(products[k])
          && products[k].donorId == old(products)[k].donorId
          && products[k].isAvailable == old(products)[k].isAvailable
        else
          r == Err(Forbidden("Not authorized to update this product"))
      ensures r.Err? ==> products == old(products)
    {
      var caller := CurrentUser(subject);
      if caller.Err? {
        return Err(caller.error);
      }
      if ValidateProductCreate(body).Err? {
        return Err(Unprocessable);
      }
      var found := Catalog.FindProduct(products, productId);
      if found.None? {
        return Err(NotFound("Product not found"));
      }
      var k := found.value;
      if !CanModifyProduct(caller.value.role, caller.value.id, products[k].donorId) {
        return Err(Forbidden("Not authorized to update this product"));
      }
      products := products[k := Catalog.Overwrite(products[k], body)];
      r := Ok(products[k]);
    }

    /** Product deletion: the same 404 and 403 as update; otherwise the first
        product with the id is marked unavailable and nothing else changes. */
    method DeleteProduct(subject: Option<string>, productId: string) returns (r: Result<string>)
      requires Valid()
      modifies this
      ensures Valid()
      ensures users == old(users) && carts == old(carts) && orders == old(orders)
      ensures CurrentUser(subject).Err? ==> r == Err(CurrentUser(subject).error)
      ensures CurrentUser(subject).Ok? && Catalog.FindProduct(old(products), productId).None? ==>
        r == Err(NotFound("Product not found"))
      ensures CurrentUser(subject).Ok? && Catalog.FindProduct(old(products), productId).Some? ==>
        var k := Catalog.FindProduct(old(products), productId).value;
        var caller := CurrentUser(subject).value;
        if CanModifyProduct(caller.role, caller.id, old(products)[k].donorId) then
          && products == old(products)[k := old(products)[k].(isAvailable := false)]
          && r == Ok("Product deleted successfully")
          && (old(products)[k].isAvailable ==> CountAvailable(products) == CountAvailable(old(products)) - 1)
        else
          r == Err(Forbidden("Not authorized to delete this product"))
      ensures r.Err? ==> products == old(products)
      ensures r.Ok? ==> forall i :: 0 <= i < |products| && products[i].id == productId ==> !products[i].isAvailable
      ensures r.Ok? ==> GetProduct(productId) == Err(NotFound("Product not found"))
      ensures r.Ok? ==> forall f, skip, limit, p ::
        p in Catalog.Page(Catalog.FindAll(products, Catalog.QueryFor(f)), skip, limit) ==> p.id != productId
    {
      var caller := CurrentUser(subject);
      if caller.Err? {
        return Err(caller.error);
      }
      var found := Catalog.FindProduct(products, productId);
      if found.None? {
        return Err(NotFound("Product not found"));
      }
      var k := found.value;
      if !CanModifyProduct(caller.value.role, caller.value.id, products[k].donorId) {
        return Err(Forbidden("Not authorized to delete this product"));
      }
      if products[k].isAvailable {
        CountAvailableAfterDelete(products, k);
      }
      products := products[k := products[k].(isAvailable := false)];
      assert forall i :: 0 <= i < |products| && products[i].id == productId ==> i == k;
      forall f: Catalog.ListingParams, skip: nat, limit: nat, p | p in Catalog.Page(Catalog.FindAll(products, Catalog.QueryFor(f)), skip, limit)
        ensures p.id != productId
      {
        Catalog.WithdrawnNotShown(products, productId, f, skip, limit);
      }
      r := Ok("Product deleted successfully");
    }

    /** The caller's cart: empty with total 0 when there is none; otherwise the
        lines whose product is available, priced live, and their total. */
    method GetCart(subject: Option<string>) returns (r: Result<Carts.CartView>)
      ensures CurrentUser(subject).Err? ==> r == Err(CurrentUser(subject).error)
      ensures CurrentUser(subject).Ok? && CurrentUser(subject).value.id !in carts ==>
        r == Ok(Carts.CartView([], 0))
      ensures CurrentUser(subject).Ok? && CurrentUser(subject).value.id in carts ==>
        var items := carts[CurrentUser(subject).value.id].items;
        r.Ok? && r.value.items == Carts.ViewLines(products, items) && r.value.total == Carts.LiveCost(products, items)
    {
      var caller := CurrentUser(subject);
      if caller.Err? {
        return Err(caller.error);
      }
      var uid := caller.value.id;
      if uid !in carts {
        return Ok(Carts.CartView([], 0));
      }
      var view := Carts.BuildCartView(products, carts[uid].items);
      r := Ok(view);
    }

    /** Adding to the cart: 422 for a non-positive quantity, 404 when the
        product is missing or unavailable (no cart changes); otherwise the
        caller's cart, created if absent, has the item merged in. */
    method AddToCart(subject: Option<string>, body: CartItem, now: int) returns (r: Result<string>)
      requires Valid()
      modifies this
      ensures Valid()
      ensures users == old(users) && products == old(products) && orders == old(orders)
      ensures CurrentUser(subject).Err? ==> r == Err(CurrentUser(subject).error)
      ensures CurrentUser(subject).Ok? && ValidateCartItem(body).Err? ==> r == Err(Unprocessable)
      ensures CurrentUser(subject).Ok? && ValidateCartItem(body).Ok? && Catalog.FindAvailable(products, body.productId).None? ==>
        r == Err(NotFound("Product not found"))
      ensures r.Err? ==> carts == old(carts)
      ensures r.Ok? <==>
        CurrentUser(subject).Ok? && ValidateCartItem(body).Ok? && Catalog.FindAvailable(products, body.productId).Some?
      ensures r.Ok? ==>
        var uid := CurrentUser(subject).value.id;
        var before := if uid in old(carts) then old(carts)[uid].items else [];
        carts == old(carts)[uid := Cart(uid, Carts.Merge(before, body), now)] &&
        r == Ok("Item added to cart successfully")
    {
      var caller := CurrentUser(subject);
      if caller.Err? {
        return Err(caller.error);
      }
      if ValidateCartItem(body).Err? {
        return Err(Unprocessable);
      }
      if Catalog.FindAvailable(products, body.productId).None? {
        return Err(NotFound("Product not found"));
      }
      var uid := caller.value.id;
      var items := if uid in carts then carts[uid].items else [];
      var merged := Carts.AddLine(items, body);
      Carts.MergeKeepsWellFormed(items, body);
      ghost var before := carts;
      carts := carts[uid := Cart(uid, merged, now)];
      assert forall id :: id in carts && id != uid ==> carts[id] == before[id];
      r := Ok("Item added to cart successfully");
    }

    /** Removing from the cart: 404 when the caller has no cart, even for a
        product never added; otherwise every line for the product is dropped. */
    method RemoveFromCart(subject: Option<string>, productId: string, now: int) returns (r: Result<string>)
      requires Valid()
      modifies this
      ensures Valid()
      ensures users == old(users) && products == old(products) && orders == old(orders)
      ensures CurrentUser(subject).Err? ==> r == Err(CurrentUser(subject).error)
      ensures CurrentUser(subject).Ok? && CurrentUser(subject).value.id !in old(carts) ==>
        r == Err(NotFound("Cart not found"))
      ensures r.Ok? <==> CurrentUser(subject).Ok? && CurrentUser(subject).value.id in old(carts)
      ensures r.Err? ==> carts == old(carts)
      ensures r.Ok? ==>
        var uid := CurrentUser(subject).value.id;
        uid in old(carts) &&
        carts == old(carts)[uid := Cart(uid, Carts.RemoveLines(old(carts)[uid].items, productId), now)] &&
        r == Ok("Item removed from cart successfully")
    {
      var caller := CurrentUser(subject);
      if caller.Err? {
        return Err(caller.error);
      }
      var uid := caller.value.id;
      if uid !in carts {
        return Err(NotFound("Cart not found"));
      }
      Carts.RemoveKeepsWellFormed(carts[uid].items, productId);
      carts := carts[uid := Cart(uid, Carts.RemoveLines(carts[uid].items, productId), now)];
      r := Ok("Item removed from cart successfully");
    }

    /** Clearing the cart deletes it; it succeeds when there is none. */
    method ClearCart(subject: Option<string>) returns (r: Result<string>)
      requires Valid()
      modifies this
      ensures Valid()
      ensures users == old(users) && products == old(products) && orders == old(orders)
      ensures CurrentUser(subject).Err? ==> r == Err(CurrentUser(subject).error) && carts == old(carts)
      ensures CurrentUser(subject).Ok? ==>
        carts == old(carts) - {CurrentUser(subject).value.id} && r == Ok("Cart cleared successfully")
    {
      var caller := CurrentUser(subject);
      if caller.Err? {
        return Err(caller.error);
      }
      carts := carts - {caller.value.id};
      r := Ok("Cart cleared successfully");
    }

    /** Order creation: the request's items are priced at live catalogue
        prices, ignoring any price the client sent; a missing or unavailable
        product is a 404 naming it, with nothing stored and the cart kept.
        Otherwise a pending order owned by the caller is appended and the
        caller's cart is deleted, whatever the order's items were. */
    method CreateOrder(subject: Option<string>, body: OrderCreate, newId: string, now: int) returns (r: Result<Order>)
      requires Valid()
      requires forall i :: 0 <= i < |orders| ==> orders[i].id != newId
      modifies this
      ensures Valid()
      ensures users == old(users) && products == old(products)
      ensures CurrentUser(subject).Err? ==> r == Err(CurrentUser(subject).error)
      ensures CurrentUser(subject).Ok? && Orders.PriceOrder(products, body.items).Err? ==>
        r == Err(Orders.PriceOrder(products, body.items).error)
      ensures r.Err? ==> carts == old(carts) && orders == old(orders)
      ensures r.Ok? <==> CurrentUser(subject).Ok? && Orders.PriceOrder(products, body.items).Ok?
      ensures r.Ok? ==>
        && CurrentUser(subject).Ok?
        && Orders.PriceOrder(products, body.items).Ok?
        && r.value == Order(newId, CurrentUser(subject).value.id, body.items, Orders.LiveTotal(products, body.items),
                            body.shippingAddress, body.paymentMethod, "pending", now, now)
        && orders == old(orders) + [r.value]
        && carts == old(carts) - {CurrentUser(subject).value.id}
      ensures r.Ok? && Orders.Chronological(old(orders)) && (forall o :: o in old(orders) ==> o.createdAt <= now) ==>
        Orders.Chronological(orders)
    {
      var caller := CurrentUser(subject);
      if caller.Err? {
        return Err(caller.error);
      }
      var total := Orders.ComputeTotal(products, body.items);
      if total.Err? {
        return Err(total.error);
      }
      var order := Order(newId, caller.value.id, body.items, total.value, body.shippingAddress,
                         body.paymentMethod, "pending", now, now);
      orders := orders + [order];
      carts := carts - {caller.value.id};
      r := Ok(order);
    }

    /** The order list: an admin's view holds every order, anyone else's only
        their own; newest first, at most 100. */
    function GetOrders(subject: Option<string>): (r: Result<seq<Order>>)
      reads this`users, this`orders
      ensures CurrentUser(subject).Err? ==> r == Err(CurrentUser(subject).error)
      ensures CurrentUser(subject).Ok? ==> r == Ok(Orders.OrderList(orders, CurrentUser(subject).value))
    {
      match CurrentUser(subject)
      case Err(e) => Err(e)
      case Ok(caller) => Ok(Orders.OrderList(orders, caller))
    }

    /** One order: found when some order has the id and the caller is admin or
        its owner; another user's order gets the same 404 as a missing id. */
    function GetOrder(subject: Option<string>, orderId: string): (r: Result<Order>)
      reads this`users, this`orders
      ensures CurrentUser(subject).Err? ==> r == Err(CurrentUser(subject).error)
      ensures CurrentUser(subject).Ok? ==>
        var caller := CurrentUser(subject).value;
        && (r.Ok? <==> exists j :: 0 <= j < |orders| && orders[j].id == orderId && (caller.role == Admin || orders[j].userId == caller.id))
        && (r.Ok? ==> r.value in orders && r.value.id == orderId && (caller.role == Admin || r.value.userId == caller.id))
        && (r.Err? ==> r.error == NotFound("Order not found"))
    {
      match CurrentUser(subject)
      case Err(e) => Err(e)
      case Ok(caller) =>
        var owner := if SeesAllOrders(caller.role) then None else Some(caller.id);
        match Orders.FindOrder(orders, orderId, owner)
        case Some(o) => Ok(o)
        case None => Err(NotFound("Order not found"))
    }

    /** The statistics overview: 403 for anyone but an admin; an admin always
        gets the available products, all orders and the active users counted. */
    function GetStatsOverview(subject: Option<string>): (r: Result<Stats>)
      reads this
      ensures CurrentUser(subject).Err? ==> r == Err(CurrentUser(subject).error)
      ensures CurrentUser(subject).Ok? && !CanViewStats(CurrentUser(subject).value.role) ==>
        r == Err(Forbidden("Admin access required"))
      ensures CurrentUser(subject).Ok? && CurrentUser(subject).value.role == Admin ==> r.Ok?
      ensures r.Ok? ==>
        && CurrentUser(subject).Ok? && CurrentUser(subject).value.role == Admin
        && r.value == Stats(CountAvailable(products), |orders|, CountActive(users))
        && r.value.totalProducts <= |products|
        && r.value.totalUsers <= |users|
    {
      match CurrentUser(subject)
      case Err(e) => Err(e)
      case Ok(caller) =>
        if !CanViewStats(caller.role) then Err(Forbidden("Admin access required"))
        else Ok(Stats(CountAvailable(products), |orders|, CountActive(users)))
    }
  }
}
