/** The product catalogue: lookups by id, the listing query with its filters
    and paging, the donor-name refresh, and how create and update build the
    stored product. Products are kept in insertion order (the store's natural
    order); a lookup by id returns the first match. */
module Catalog {
  import opened Common
  import opened Models
  import opened Text
  import Users
  import Seqs

  /** Index of the first product with id `id` (availability is not looked at). */
  function FindProduct(products: seq<Product>, id: string): (k: Option<nat>)
    ensures k.Some? ==> k.value < |products| && products[k.value].id == id
    ensures k.Some? ==> forall j :: 0 <= j < k.value ==> products[j].id != id
    ensures k.None? <==> forall j :: 0 <= j < |products| ==> products[j].id != id
  {
    if products == [] then None
    else if products[0].id == id then Some(0)
    else
      var k := FindProduct(products[1..], id);
      assert forall j :: 1 <= j < |products| ==> products[j] == products[1..][j - 1];
      match k
      case Some(i) => Some(i + 1)
      case None => None
  }

  /** No two stored products share an id (ids are fresh uuids). */
  predicate IdsUnique(products: seq<Product>) {
    forall i, j :: 0 <= i < j < |products| ==> products[i].id != products[j].id
  }

  /** The first product with id `id` that is still available. */
  function FindAvailable(products: seq<Product>, id: string): (r: Option<Product>)
    ensures r.Some? ==> r.value in products && r.value.id == id && r.value.isAvailable
    ensures r.None? <==> forall j :: 0 <= j < |products| ==> !(products[j].id == id && products[j].isAvailable)
  {
    if products == [] then None
    else if products[0].id == id && products[0].isAvailable then Some(products[0])
    else
      var r := FindAvailable(products[1..], id);
      assert forall j :: 1 <= j < |products| ==> products[j] == products[1..][j - 1];
      r
  }

  /** What `quantity` units of product `productId` cost at its live catalogue
      price; nothing when the product is missing or unavailable. */
  function LineCost(products: seq<Product>, productId: string, quantity: int): int {
    match FindAvailable(products, productId)
    case Some(p) => p.price * quantity
    case None => 0
  }

  /** The fields of a stored product that the product schema governs. */
  function AsCreate(p: Product): ProductCreate {
    ProductCreate(p.title, p.description, p.price, p.originalPrice, p.category, p.condition,
                  p.imageUrl, p.location, p.donorId)
  }

  /** A stored product whose schema-governed fields satisfy the schema. */
  predicate Listable(p: Product) {
    ProductCreateOk(AsCreate(p))
  }

  /** The product `create_product` stores: the body's fields, the caller as
      donor (whatever donor id the body names), available, unrated. */
  function NewProduct(d: ProductCreate, id: string, donor: User, now: int): Product {
    Product(id, d.title, d.description, d.price, d.originalPrice, d.category, d.condition,
            d.imageUrl, d.location, donor.id, donor.name, now, true, 0.0, 0)
  }

  /** The product after `update_product` sets the body's fields; the donor id
      written back is the stored one. */
  function Overwrite(p: Product, d: ProductCreate): Product {
    p.(title := d.title, description := d.description, price := d.price,
       originalPrice := d.originalPrice, category := d.category, condition := d.condition,
       imageUrl := d.imageUrl, location := d.location, donorId := p.donorId)
  }

  /** Query-string parameters of the product listing. */
  datatype ListingParams = ListingParams(
    category: Option<string>,
    search: Option<string>,
    minPrice: Option<int>,
    maxPrice: Option<int>,
    condition: Option<string>)

  /** The query document the listing sends to the store; `is_available: true`
      is always part of it, and each other entry is present or not. */
  datatype Query = Query(
    category: Option<string>,
    search: Option<string>,
    minPrice: Option<int>,
    maxPrice: Option<int>,
    condition: Option<string>)

  /** How the store evaluates a query on one product. The search term is
      matched as a literal, case-insensitive substring of title or description. */
  predicate Matches(q: Query, p: Product) {
    && p.isAvailable
    && (q.category.Some? ==> p.category == q.category.value)
    && (q.search.Some? ==> ContainsIgnoringCase(p.title, q.search.value) || ContainsIgnoringCase(p.description, q.search.value))
    && (q.minPrice.Some? ==> q.minPrice.value <= p.price)
    && (q.maxPrice.Some? ==> p.price <= q.maxPrice.value)
    && (q.condition.Some? ==> p.condition == q.condition.value)
  }

  /** A present, non-empty string parameter (an empty one is falsy and ignored). */
  predicate Given(s: Option<string>) {
    s.Some? && s.value != ""
  }

  /** What the listing is meant to keep, stated on the parameters: available
      products that pass every filter that was given; "All" is no category
      filter, the price bounds are inclusive. */
  predicate Selected(f: ListingParams, p: Product) {
    && p.isAvailable
    && (!Given(f.category) || f.category.value == "All" || p.category == f.category.value)
    && (!Given(f.search) || ContainsIgnoringCase(p.title, f.search.value) || ContainsIgnoringCase(p.description, f.search.value))
    && (f.minPrice.None? || f.minPrice.value <= p.price)
    && (f.maxPrice.None? || p.price <= f.maxPrice.value)
    && (!Given(f.condition) || p.condition == f.condition.value)
  }

  /** The query `get_products` builds, one entry at a time; it selects exactly
      the products the parameters ask for. */
  function QueryFor(f: ListingParams): (q: Query)
    ensures forall p :: Matches(q, p) <==> Selected(f, p)
  {
    var q0 := Query(None, None, None, None, None);
    var q1 := if Given(f.category) && f.category.value != "All" then q0.(category := f.category) else q0;
    var q2 := if Given(f.search) then q1.(search := f.search) else q1;
    var q3 := if f.minPrice.Some? then q2.(minPrice := f.minPrice) else q2;
    var q4 := if f.maxPrice.Some? then q3.(maxPrice := f.maxPrice) else q3;
    if Given(f.condition) then q4.(condition := f.condition) else q4
  }

  /** The products the store returns for `q`, in store order. */
  function FindAll(products: seq<Product>, q: Query): (r: seq<Product>)
    ensures |r| <= |products|
    ensures forall p :: p in r <==> p in products && Matches(q, p)
  {
    if products == [] then []
    else
      var rest := FindAll(products[1..], q);
      assert forall p :: p in products <==> p == products[0] || p in products[1..];
      if Matches(q, products[0]) then [products[0]] + rest else rest
  }

  /** The store keeps the matching products in their stored order. */
  lemma {:induction false} FindAllKeepsOrder(products: seq<Product>, q: Query)
    ensures Seqs.IsSubsequence(FindAll(products, q), products)
  {
    if products != [] {
      FindAllKeepsOrder(products[1..], q);
      var rest := FindAll(products[1..], q);
      if !Matches(q, products[0]) {
        assert FindAll(products, q) == rest;
        if rest != [] {
          assert Seqs.IsSubsequence(rest, products[1..]);
        }
      } else {
        assert FindAll(products, q) == [products[0]] + rest;
        assert ([products[0]] + rest)[1..] == rest;
      }
    }
  }

  /** `skip` then `limit`: the window of `s` that starts at index `skip` and
      holds at most `limit` elements (none when `skip` is past the end). */
  function Page<T>(s: seq<T>, skip: nat, limit: nat): (r: seq<T>)
    ensures |r| == if skip >= |s| then 0 else if limit <= |s| - skip then limit else |s| - skip
    ensures forall i :: 0 <= i < |r| ==> r[i] == s[skip + i]
  {
    var rest := if skip <= |s| then s[skip..] else [];
    if limit <= |rest| then rest[..limit] else rest
  }

  /** A listing page holds at most `limit` products, each stored and each
      selected by the parameters; with no skip and at most `limit` matches,
      every selected product is on it. */
  lemma {:induction false} ListingPage(products: seq<Product>, f: ListingParams, skip: nat, limit: nat)
    ensures |Page(FindAll(products, QueryFor(f)), skip, limit)| <= limit
    ensures forall p :: p in Page(FindAll(products, QueryFor(f)), skip, limit) ==> p in products && Selected(f, p)
    ensures skip == 0 && |FindAll(products, QueryFor(f))| <= limit ==>
      forall p :: p in products && Selected(f, p) ==> p in Page(FindAll(products, QueryFor(f)), skip, limit)
  {
    var all := FindAll(products, QueryFor(f));
    var page := Page(all, skip, limit);
    forall p | p in page ensures p in products && Selected(f, p) {
      var i :| 0 <= i < |page| && page[i] == p;
      assert all[skip + i] == p;
    }
    if skip == 0 && |all| <= limit {
      assert page == all;
    }
  }

  /** A product id all of whose products are unavailable is found by no
      single-product lookup and appears on no listing page. */
  lemma {:induction false} WithdrawnNotShown(products: seq<Product>, id: string, f: ListingParams, skip: nat, limit: nat)
    requires forall i :: 0 <= i < |products| && products[i].id == id ==> !products[i].isAvailable
    ensures FindAvailable(products, id).None?
    ensures forall p :: p in Page(FindAll(products, QueryFor(f)), skip, limit) ==> p.id != id
  {
    ListingPage(products, f, skip, limit);
    forall p | p in Page(FindAll(products, QueryFor(f)), skip, limit) ensures p.id != id {
      var i :| 0 <= i < |products| && products[i] == p;
    }
  }

  /** The product with its donor's current name when the donor still exists;
      otherwise the stored snapshot is kept. */
  function Enrich(users: seq<User>, p: Product): Product {
    match Users.FindById(users, p.donorId)
    case Some(u) => p.(donorName := u.name)
    case None => p
  }

  /** The donor-name refresh of a listing page, product by product. */
  method EnrichDonorNames(users: seq<User>, page: seq<Product>) returns (r: seq<Product>)
    ensures |r| == |page|
    ensures forall i :: 0 <= i < |r| ==> r[i] == page[i].(donorName := r[i].donorName)
    ensures forall i :: 0 <= i < |r| && Users.FindById(users, page[i].donorId).Some? ==>
      r[i].donorName == Users.FindById(users, page[i].donorId).value.name
    ensures forall i :: 0 <= i < |r| && Users.FindById(users, page[i].donorId).None? ==> r[i] == page[i]
  {
    r := page;
    var i := 0;
    while i < |r|
      invariant 0 <= i <= |r| == |page|
      invariant forall j :: 0 <= j < i ==> r[j] == Enrich(users, page[j])
      invariant forall j :: i <= j < |r| ==> r[j] == page[j]
    {
      var donor := Users.FindById(users, r[i].donorId);
      if donor.Some? {
        r := r[i := r[i].(donorName := donor.value.name)];
      }
      i := i + 1;
    }
  }
}
