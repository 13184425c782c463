/** The stored documents of the marketplace (users, products, carts, orders)
    and the request bodies with the schemas that admit them. Prices are whole
    cents; ids and timestamps are supplied by the caller. */
module Models {
  import opened Common

  datatype Role = Buyer | Donor | Admin

  /** The string a role is written as in a request and in a stored user. */
  function RoleName(r: Role): string {
    match r
    case Buyer => "buyer"
    case Donor => "donor"
    case Admin => "admin"
  }

  /** The role a registration string selects; the schema pattern admits
      exactly the three role names, and each names its own role. */
  function ParseRole(s: string): (r: Option<Role>)
    ensures r.Some? <==> s == "buyer" || s == "donor" || s == "admin"
    ensures r.Some? ==> RoleName(r.value) == s
    ensures forall role: Role :: RoleName(role) == s ==> r == Some(role)
  {
    if s == "buyer" then Some(Buyer)
    else if s == "donor" then Some(Donor)
    else if s == "admin" then Some(Admin)
    else None
  }

  /** The six product categories, in the order the categories endpoint lists them. */
  const Categories: seq<string> := ["Clothing", "Toys", "Books", "Electronics", "Sports", "Other"]

  /** The five product conditions the product schema admits. */
  const Conditions: seq<string> := ["New", "Excellent", "Very Good", "Good", "Fair"]

  datatype User = User(id: string, name: string, email: string, role: Role, createdAt: int, isActive: bool)

  datatype Product = Product(
    id: string,
    title: string,
    description: string,
    price: int,
    originalPrice: int,
    category: string,
    condition: string,
    imageUrl: string,
    location: string,
    donorId: string,
    donorName: string,
    createdAt: int,
    isAvailable: bool,
    rating: real,
    reviewsCount: int)

  /** One line of a cart, and the body of an add-to-cart request. */
  datatype CartItem = CartItem(productId: string, quantity: int)

  datatype Cart = Cart(userId: string, items: seq<CartItem>, updatedAt: int)

  /** A line of an order as the client sends it; its `price` is kept but never used. */
  datatype OrderItem = OrderItem(productId: string, quantity: int, price: Option<int>)

  datatype Order = Order(
    id: string,
    userId: string,
    items: seq<OrderItem>,
    totalAmount: int,
    shippingAddress: map<string, string>,
    paymentMethod: string,
    status: string,
    createdAt: int,
    updatedAt: int)

  /** Request bodies, before their schema is checked. */
  datatype UserCreate = UserCreate(name: string, email: string, password: string, role: Option<string>)

  datatype ProductCreate = ProductCreate(
    title: string,
    description: string,
    price: int,
    originalPrice: int,
    category: string,
    condition: string,
    imageUrl: string,
    location: string,
    donorId: string)

  datatype OrderCreate = OrderCreate(items: seq<OrderItem>, shippingAddress: map<string, string>, paymentMethod: string)

  /** A registration the schema accepted; the role defaults to buyer. */
  datatype Registration = Registration(name: string, email: string, password: string, role: Role)

  predicate LengthWithin(s: string, lo: nat, hi: nat) {
    lo <= |s| <= hi
  }

  /** The registration schema: a name of 2 to 100 characters, a password of at
      least 6, and a role that is absent (buyer) or one of the three role names. */
  function ValidateUserCreate(u: UserCreate): (r: Result<Registration>)
    ensures r.Ok? <==>
      2 <= |u.name| <= 100 && |u.password| >= 6 &&
      (u.role.None? || u.role.value == "buyer" || u.role.value == "donor" || u.role.value == "admin")
    ensures r.Ok? ==> r.value.name == u.name && r.value.email == u.email && r.value.password == u.password
    ensures r.Ok? && u.role.None? ==> r.value.role == Buyer
    ensures r.Ok? && u.role.Some? ==> RoleName(r.value.role) == u.role.value
    ensures r.Err? ==> r.error == Unprocessable
  {
    var role := if u.role.None? then Some(Buyer) else ParseRole(u.role.value);
    if LengthWithin(u.name, 2, 100) && |u.password| >= 6 && role.Some? then
      Ok(Registration(u.name, u.email, u.password, role.value))
    else
      Err(Unprocessable)
  }

  /** The product schema's field constraints. */
  predicate ProductCreateOk(p: ProductCreate) {
    && LengthWithin(p.title, 5, 200)
    && LengthWithin(p.description, 10, 1000)
    && p.price > 0
    && p.originalPrice > 0
    && p.category in Categories
    && p.condition in Conditions
    && LengthWithin(p.location, 2, 100)
  }

  /** The product schema: title 5..200, description 10..1000, both prices
      positive (no relation between them), a known category and condition,
      location 2..100; image URL and donor id are free. */
  function ValidateProductCreate(p: ProductCreate): (r: Result<ProductCreate>)
    ensures r.Ok? <==>
      && 5 <= |p.title| <= 200
      && 10 <= |p.description| <= 1000
      && p.price > 0 && p.originalPrice > 0
      && (p.category == "Clothing" || p.category == "Toys" || p.category == "Books"
          || p.category == "Electronics" || p.category == "Sports" || p.category == "Other")
      && (p.condition == "New" || p.condition == "Excellent" || p.condition == "Very Good"
          || p.condition == "Good" || p.condition == "Fair")
      && 2 <= |p.location| <= 100
    ensures r.Ok? ==> r.value == p
    ensures r.Err? ==> r.error == Unprocessable
  {
    if ProductCreateOk(p) then Ok(p) else Err(Unprocessable)
  }

  /** The cart-item schema: the quantity must be positive. */
  function ValidateCartItem(c: CartItem): (r: Result<CartItem>)
    ensures r.Ok? <==> c.quantity > 0
    ensures r.Ok? ==> r.value == c
    ensures r.Err? ==> r.error == Unprocessable
  {
    if c.quantity > 0 then Ok(c) else Err(Unprocessable)
  }
}
