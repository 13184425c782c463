/** The storefront's client-side state: the cart kept in the page (adding a
    product, the badge count, the displayed total) and the product filter of
    the products page. Prices are whole cents. */
module Storefront {
  import opened Text
  import Seqs

  /** A product card of the storefront's catalogue. */
  datatype Listing = Listing(
    id: string,
    title: string,
    price: int,
    originalPrice: int,
    category: string,
    condition: string,
    description: string,
    donor: string,
    location: string)

  /** A cart entry: the product's fields spread out, plus a quantity. */
  datatype CartEntry = CartEntry(product: Listing, quantity: int)

  /** Some entry of the cart carries product id `id`. */
  predicate InCart(cart: seq<CartEntry>, id: string) {
    exists i :: 0 <= i < |cart| && cart[i].product.id == id
  }

  /** No two entries carry the same product id. */
  predicate UniqueIds(cart: seq<CartEntry>) {
    forall i, j :: 0 <= i < j < |cart| ==> cart[i].product.id != cart[j].product.id
  }

  /** Every entry carrying id `id` gets one more unit; the others are kept. */
  function Bump(cart: seq<CartEntry>, id: string): seq<CartEntry> {
    seq(|cart|, i requires 0 <= i < |cart| =>
      if cart[i].product.id == id then cart[i].(quantity := cart[i].quantity + 1) else cart[i])
  }

  /** The cart updater run when a product's button is pressed. */
  function AddToCart(cart: seq<CartEntry>, product: Listing): (r: seq<CartEntry>)
    ensures InCart(cart, product.id) ==>
      && |r| == |cart|
      && forall i :: 0 <= i < |r| ==>
        r[i].product == cart[i].product &&
        r[i].quantity == cart[i].quantity + (if cart[i].product.id == product.id then 1 else 0)
    ensures !InCart(cart, product.id) ==> r == cart + [CartEntry(product, 1)]
  {
    if InCart(cart, product.id) then Bump(cart, product.id) else cart + [CartEntry(product, 1)]
  }

  /** The number on the cart badge. */
  function BadgeCount(cart: seq<CartEntry>): nat {
    |cart|
  }

  /** The badge grows by one exactly when the product was not yet in the cart. */
  lemma BadgeCountOnAdd(cart: seq<CartEntry>, product: Listing)
    ensures BadgeCount(AddToCart(cart, product)) == BadgeCount(cart) + (if InCart(cart, product.id) then 0 else 1)
  {
  }

  /** Adding to a cart with one entry per product keeps one entry per product. */
  lemma {:induction false} AddKeepsIdsUnique(cart: seq<CartEntry>, product: Listing)
    requires UniqueIds(cart)
    ensures UniqueIds(AddToCart(cart, product))
  {
    var r := AddToCart(cart, product);
    if !InCart(cart, product.id) {
      forall i, j | 0 <= i < j < |r| ensures r[i].product.id != r[j].product.id {
        if j == |cart| {
          assert r[i] == cart[i];
        } else {
          assert r[i] == cart[i] && r[j] == cart[j];
        }
      }
    }
  }

  /** Adding the same new product twice leaves one entry with quantity two. */
  lemma {:induction false} AddTwiceAccumulates(cart: seq<CartEntry>, product: Listing)
    requires !InCart(cart, product.id)
    ensures AddToCart(AddToCart(cart, product), product) == cart + [CartEntry(product, 2)]
  {
    var once := cart + [CartEntry(product, 1)];
    assert once[|cart|].product.id == product.id;
    var twice := AddToCart(once, product);
    assert |twice| == |cart| + 1;
    forall i | 0 <= i < |cart| ensures twice[i] == cart[i] {
      assert once[i] == cart[i];
    }
    assert twice == cart + [CartEntry(product, 2)];
  }

  /** The displayed total: price times quantity summed over the entries, left to right. */
  function CartTotal(cart: seq<CartEntry>): int
    decreases |cart|
  {
    if cart == [] then 0
    else
      var last := cart[|cart| - 1];
      CartTotal(cart[..|cart| - 1]) + last.product.price * last.quantity
  }

  /** The summed prices of the entries carrying id `id`. */
  function MatchingPrice(cart: seq<CartEntry>, id: string): int
    decreases |cart|
  {
    if cart == [] then 0
    else
      var last := cart[|cart| - 1];
      MatchingPrice(cart[..|cart| - 1], id) + (if last.product.id == id then last.product.price else 0)
  }

  /** One more unit of every entry for `id` adds those entries' prices to the total. */
  lemma {:induction false} BumpRaisesTotal(cart: seq<CartEntry>, id: string)
    ensures CartTotal(Bump(cart, id)) == CartTotal(cart) + MatchingPrice(cart, id)
    decreases |cart|
  {
    if cart != [] {
      var init := cart[..|cart| - 1];
      BumpRaisesTotal(init, id);
      var b := Bump(cart, id);
      assert b[..|b| - 1] == Bump(init, id);
    }
  }

  /** Adding a product raises the total by its unit price when it is new, and
      by the unit prices of its entries when it is already in the cart. */
  lemma {:induction false} AddRaisesTotal(cart: seq<CartEntry>, product: Listing)
    ensures CartTotal(AddToCart(cart, product)) ==
      CartTotal(cart) + (if InCart(cart, product.id) then MatchingPrice(cart, product.id) else product.price)
  {
    if InCart(cart, product.id) {
      BumpRaisesTotal(cart, product.id);
    } else {
      assert (cart + [CartEntry(product, 1)])[..|cart|] == cart;
    }
  }

  /** In a cart with one entry per product, the entries for a product's id
      cost exactly that entry's unit price. */
  lemma {:induction false} UniqueMatchingPrice(cart: seq<CartEntry>, k: nat)
    requires UniqueIds(cart)
    requires k < |cart|
    ensures MatchingPrice(cart, cart[k].product.id) == cart[k].product.price
    decreases |cart|
  {
    var init := cart[..|cart| - 1];
    assert forall j :: 0 <= j < |init| ==> init[j] == cart[j];
    if k < |cart| - 1 {
      UniqueMatchingPrice(init, k);
    } else {
      NoMatchingPrice(init, cart[k].product.id);
    }
  }

  /** Entries that do not carry `id` contribute nothing to its price. */
  lemma {:induction false} NoMatchingPrice(cart: seq<CartEntry>, id: string)
    requires forall j :: 0 <= j < |cart| ==> cart[j].product.id != id
    ensures MatchingPrice(cart, id) == 0
    decreases |cart|
  {
    if cart != [] {
      NoMatchingPrice(cart[..|cart| - 1], id);
    }
  }

  /** A product card is shown when its category is the selected one (or "All"
      is selected) and its title contains the search term, ignoring case. */
  predicate Shown(p: Listing, category: string, term: string) {
    (category == "All" || p.category == category) && ContainsIgnoringCase(p.title, term)
  }

  /** The products page's filtered list. */
  function FilteredProducts(products: seq<Listing>, category: string, term: string): (r: seq<Listing>)
    ensures |r| <= |products|
    ensures forall p :: p in r <==> p in products && Shown(p, category, term)
  {
    if products == [] then []
    else
      var rest := FilteredProducts(products[1..], category, term);
      assert forall p :: p in products <==> p == products[0] || p in products[1..];
      if Shown(products[0], category, term) then [products[0]] + rest else rest
  }

  /** The filtered list keeps the catalogue's order. */
  lemma {:induction false} FilteredKeepsOrder(products: seq<Listing>, category: string, term: string)
    ensures Seqs.IsSubsequence(FilteredProducts(products, category, term), products)
  {
    if products != [] {
      FilteredKeepsOrder(products[1..], category, term);
      var rest := FilteredProducts(products[1..], category, term);
      if Shown(products[0], category, term) {
        assert ([products[0]] + rest)[1..] == rest;
      }
    }
  }

  /** The page's initial state, category "All" and an empty search, lists every product. */
  lemma {:induction false} InitialFilterShowsAll(products: seq<Listing>)
    ensures FilteredProducts(products, "All", "") == products
  {
    if products != [] {
      InitialFilterShowsAll(products[1..]);
      assert Lower("") == "";
      assert Shown(products[0], "All", "");
    }
  }
}
