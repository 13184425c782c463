# Second-hand marketplace: a verified model of its store and storefront

The marketplace lets donors list second-hand goods, buyers put them in a cart
and place orders, and admins oversee everything. This project models, in
Dafny, the request handlers of its backend over an in-memory store, and the
two pieces of client-side logic of its storefront (the page's cart updater
and the products-page filter), and proves what they promise.

Layout, one module per file:

- `common.dfy` (`Common`): `Option`, `Result` and the HTTP errors the handlers
  raise, with their status codes and detail messages.
- `models.dfy` (`Models`): users, products, carts, orders, request bodies, and
  the schemas that admit the registration, product and cart-item bodies.
- `access.dfy` (`Access`): the role and ownership rules.
- `text.dfy` (`Text`): ASCII lower-casing and substring search.
- `seqs.dfy` (`Seqs`): order-preserving selection (subsequences).
- `users.dfy` (`Users`): the lookups by email and by id, and email uniqueness.
- `catalog.dfy` (`Catalog`): the product lookups, the listing query with its
  filters and paging, the donor-name refresh, and how create and update
  build the stored product.
- `carts.dfy` (`Carts`): the cart lines, the add-to-cart merge, removal, and
  the priced cart view.
- `orders.dfy` (`Orders`): pricing an order at live prices, and which orders a
  caller sees, newest first.
- `server.dfy` (`Server`): the class `Store`, holding the four collections as
  fields, with one member per endpoint. Every state-changing handler keeps
  the store invariant `Valid()`: user, product and order ids are unique,
  emails are unique, stored products satisfy
  the product schema, and each cart is filed under its owner with one line
  per product and positive quantities.
- `storefront.dfy` (`Storefront`): the storefront's cart updater, its badge
  and total, and the products filter.

Conventions of the model:

- Each collection is a sequence in insertion order, the store's natural
  order. A single-document lookup returns the first match.
- Carts are a map from user id to cart.
- A handler that needs a caller takes the email the bearer token names, or
  `None` when the token does not yield one.
- Handlers check the caller first. Next comes the request body's schema: a
  refused body is `Unprocessable`, status 422. The handler's own checks
  come last.
- New ids and the current time are parameters. A handler that stores a new
  user, product or order requires its id to be unused, as a fresh uuid is.
- Prices and totals are whole cents.

## Model

| member | source | states |
|---|---|---|
| Models.ParseRole | backend/server.py:44 | exactly "buyer", "donor" and "admin" are admitted, and each names its own role |
| Models.ValidateUserCreate | backend/server.py:40-44 | a registration is admitted iff the name has 2..100 characters, the password at least 6, and the role is absent or one of the three names; an absent role is buyer; otherwise 422 |
| Models.ValidateProductCreate | backend/server.py:58-67 | a product body is admitted iff title 5..200, description 10..1000, both prices positive, category one of the six, condition one of the five, location 2..100; otherwise 422 |
| Models.ValidateCartItem | backend/server.py:102-104 | a cart item is admitted iff its quantity is positive; otherwise 422 |
| Access.CanCreateProduct | backend/server.py:275 | a product may be created by any role but buyer |
| Access.CanModifyProduct | backend/server.py:297 | an admin may update or delete any product; anyone else is refused exactly for a product whose donor is someone else; deletion applies the same rule (line 314) |
| Access.SeesAllOrders | backend/server.py:418-419 | only an admin's order queries drop the owner filter, in the order list and in the single-order lookup (line 427) |
| Access.CanViewStats | backend/server.py:439 | only an admin may read the statistics overview |
| Users.FindByEmail | backend/server.py:138-140 | a found user is stored and has the email; nothing is found iff no stored user has it |
| Users.FindById | backend/server.py:254-256 | a found user is stored and has the id; nothing is found iff no stored user has it |
| Users.AppendKeepsEmailsUnique | backend/server.py:160-172 | appending a user whose email is not yet stored keeps emails unique |
| Users.EmailIdentifiesUser | backend/server.py:138-141 | with unique emails, the lookup by a stored user's email returns exactly that user |
| Catalog.FindProduct | backend/server.py:294-295 | the first product with the id, available or not; none iff no product has the id |
| Catalog.FindAvailable | backend/server.py:262-264 | a found product is stored, has the id and is available; none iff no available product has the id |
| Catalog.QueryFor | backend/server.py:226-247 | the query built from the parameters matches a product iff it is available and passes each given filter: category unless empty or "All", search in title or description, inclusive price bounds, condition unless empty |
| Catalog.FindAll | backend/server.py:250 | the store returns exactly the stored products the query matches, no more of them than are stored |
| Catalog.FindAllKeepsOrder | backend/server.py:250 | the matches come back in stored order |
| Catalog.Page | backend/server.py:250 | skip then limit: the window starting at `skip` with at most `limit` elements, empty past the end |
| Catalog.WithdrawnNotShown | backend/server.py:226-264 | a product id whose products are all unavailable is found by no single-product lookup and is on no listing page |
| Catalog.ListingPage | backend/server.py:217-258 | a listing page has at most `limit` products, each stored and each selected by the parameters; with no skip and few enough matches, every selected product is on it |
| Catalog.EnrichDonorNames | backend/server.py:252-256 | each product is kept except that its donor name becomes the current name of its donor when the donor is found; products whose donor is gone are unchanged |
| Carts.FirstLine | backend/server.py:357-361 | the first line for the product; none iff no line has it |
| Carts.LocateLine | backend/server.py:357-361 | the search loop stops at the first line for the product |
| Carts.AddLine | backend/server.py:357-366 | the update of the cart lines equals the merge: the found line's quantity grows, or the item is appended |
| Carts.MergeEffect | backend/server.py:363-364 | adding a product already in a cart grows that product's line by the added quantity; the line count and every other line are unchanged |
| Carts.MergeAppends | backend/server.py:365-366 | a product not yet in the cart becomes one new last line |
| Carts.MergeKeepsWellFormed | backend/server.py:355-366 | merging a positive quantity keeps one line per product and positive quantities |
| Carts.RepeatedAddAccumulates | backend/server.py:355-366 | adding a new product twice leaves one line with the summed quantity |
| Carts.RemoveLines | backend/server.py:380 | the kept lines are exactly the lines for other products |
| Carts.RemoveLinesKeepsOrder | backend/server.py:380 | the kept lines keep their order |
| Carts.RemoveAbsentIsIdentity | backend/server.py:380 | removing a product with no line leaves the cart unchanged |
| Carts.RemoveKeepsWellFormed | backend/server.py:380 | removal keeps one line per product and positive quantities |
| Carts.BuildCartView | backend/server.py:328-342 | the loop's lines and total are the shown lines of the cart and its cost at live prices |
| Carts.ViewTotalIsSumOfLines | backend/server.py:331-342 | the shown total is the sum of the shown line totals, and no more lines are shown than the cart has |
| Carts.ViewLinesAreLive | backend/server.py:331-342 | every shown line carries an available stored product, a cart line's quantity, and price times quantity as its total |
| Carts.AvailableLines | backend/server.py:331-333 | the cart lines kept are exactly those whose product is available |
| Carts.AvailableLinesKeepOrder | backend/server.py:331-333 | the available lines keep the cart's order |
| Carts.ViewShowsAvailableLines | backend/server.py:331-342 | the cart view has one line per available cart line, in the same order, with that line's product and quantity |
| Carts.AllAvailableAllShown | backend/server.py:331-342 | when every product in the cart is available, every line is shown, in order, with its own quantity |
| Orders.FirstUnavailable | backend/server.py:397-400 | the first item whose product is missing or unavailable; none iff every item's product is available |
| Orders.PriceOrder | backend/server.py:395-401 | pricing succeeds iff every item's product is available, with the live total; otherwise the 404 names the first item whose product is not |
| Orders.ComputeTotal | backend/server.py:395-401 | the pricing loop computes exactly that outcome |
| Orders.LiveTotalIgnoresClientPrice | backend/server.py:401 | the total depends only on each item's product and quantity |
| Orders.ClientPriceIgnored | backend/server.py:395-401 | client-supplied prices change neither the total nor the reported missing product |
| Orders.CheckoutMatchesCart | backend/server.py:395-401 | ordering exactly the cart's lines, all available, costs the cart view's total |
| Orders.OrdersOf | backend/server.py:417 | the selected orders are exactly the caller's |
| Orders.OrdersOfChronological | backend/server.py:417-421 | a caller's orders keep the collection's time order |
| Orders.NewestFirst | backend/server.py:421 | the orders from the latest stored to the earliest |
| Orders.OrderListSound | backend/server.py:415-422 | at most 100 orders, all stored; a non-admin gets only their own |
| Orders.OrderListComplete | backend/server.py:415-422 | with at most 100 visible orders, every visible order is listed |
| Orders.OrderListNewestFirst | backend/server.py:421 | when orders were stored in time order, the list runs from newest to oldest creation time |
| Orders.FindOrder | backend/server.py:426-430 | the first order with the id, among the owner's when an owner is given; none iff there is no such order |
| Server.GetCategories | backend/server.py:458-469 | exactly the six category names the product schema admits, distinct and in the endpoint's fixed order |
| Server.CountAvailable | backend/server.py:442 | the available-product count is at most the number stored; it is 0 iff no product is available and the full number iff every product is |
| Server.CountAvailableAppend | backend/server.py:283 | storing a product adds one to the available count exactly when it is available |
| Server.CountAvailableAfterDelete | backend/server.py:317 | marking an available product unavailable lowers the available count by one |
| Server.CountActive | backend/server.py:444 | the active-user count is at most the number stored; it is 0 iff no user is active and the full number iff every user is |
| Server.CountActiveAppend | backend/server.py:172 | storing a user adds one to the active count exactly when the user is active |
| Server.Store.CurrentUser | backend/server.py:128-141 | 401 "Invalid authentication credentials" without a subject; 401 "User not found" iff no stored user has the email; otherwise that stored user |
| Server.Store.Register | backend/server.py:158-189 | 422, then 400 "Email already registered"; otherwise the active user with the requested or default role is appended, the reply carries a bearer token for its email, that email now authenticates exactly the new user, and the active-user count grows by one |
| Server.Store.GetProducts | backend/server.py:217-258 | the page of the products the parameters select, skip (0 when absent) then limit (50 when absent), each with its donor's current name; never more than the limit |
| Server.Store.GetProduct | backend/server.py:260-271 | found iff some product with the id is available, then the first such product with its donor's current name; otherwise 404 "Product not found" |
| Server.Store.CreateProduct | backend/server.py:273-285 | 401, 422, then 403 for a buyer; it succeeds exactly for an authenticated donor or admin with a valid body, and then an available product with the caller as donor (whatever the body names) is appended, and the available count grows by one |
| Server.Store.UpdateProduct | backend/server.py:287-306 | 401, 422, then 404 if no product has the id (even a deleted one), then 403 unless admin or donor; otherwise the first such product takes the body's fields and keeps its donor and availability |
| Server.Store.DeleteProduct | backend/server.py:308-318 | 401, 404, 403 as for update; otherwise the product is marked unavailable and nothing else changes; the available count drops by one if it was available; afterwards the id gets 404 "Product not found" from the single-product read and is on no listing page |
| Server.Store.GetCart | backend/server.py:321-342 | no cart: no lines and total 0; otherwise the lines whose product is available, priced live, and their total |
| Server.Store.AddToCart | backend/server.py:344-372 | 401, 422 for a non-positive quantity, 404 for a missing or unavailable product, with no cart changed; otherwise the caller's cart, created when absent, has the item merged in |
| Server.Store.RemoveFromCart | backend/server.py:374-385 | 404 "Cart not found" without a cart; it succeeds exactly when the authenticated caller has a cart, and then every line for the product is dropped |
| Server.Store.ClearCart | backend/server.py:387-390 | the caller's cart is deleted, and succeeds when there is none |
| Server.Store.CreateOrder | backend/server.py:393-413 | a missing or unavailable product is a 404 naming it, storing nothing and keeping the cart; it succeeds exactly when the caller is authenticated and every item's product is available, and then a pending order of the caller at the live total is appended and the caller's cart is deleted; time order of the orders is kept |
| Server.Store.GetOrders | backend/server.py:415-422 | the caller's order list: all orders for an admin, their own otherwise, newest first, at most 100 |
| Server.Store.GetOrder | backend/server.py:424-434 | found iff an order has the id and the caller is admin or its owner; another user's order gets the same 404 "Order not found" as a missing one |
| Server.Store.GetStatsOverview | backend/server.py:437-444 | 403 "Admin access required" for anyone but an admin; an admin always succeeds and gets the available products, all orders and the active users counted |
| Storefront.AddToCart | frontend/src/App.js:536-548 | a product already in the cart adds one unit to every entry for it and changes nothing else; a new one is appended with quantity 1 |
| Storefront.BadgeCountOnAdd | frontend/src/App.js:142-144 | the cart badge grows by one exactly when the product was not yet in the cart |
| Storefront.AddKeepsIdsUnique | frontend/src/App.js:536-548 | adding keeps one entry per product |
| Storefront.AddTwiceAccumulates | frontend/src/App.js:536-548 | adding a new product twice leaves one entry with quantity two |
| Storefront.BumpRaisesTotal | frontend/src/App.js:515 | one more unit of each entry for a product raises the total by those entries' unit prices |
| Storefront.AddRaisesTotal | frontend/src/App.js:515 | adding a product raises the displayed total by its unit price when new, by its entries' unit prices otherwise |
| Storefront.UniqueMatchingPrice | frontend/src/App.js:515 | with one entry per product, that entry's unit price is what one more unit adds |
| Storefront.FilteredProducts | frontend/src/App.js:550-554 | a product is listed iff the category is "All" or its own and its title contains the search term, ignoring case |
| Storefront.FilteredKeepsOrder | frontend/src/App.js:550-554 | the listed products keep the catalogue's order |
| Storefront.InitialFilterShowsAll | frontend/src/App.js:533-534 | the initial state, "All" with an empty search, lists every product |

The storefront's home page carries a copy of the cart updater
(`frontend/src/App.js:392-404`) identical to the products page's one, so
`Storefront.AddToCart` models both.

## Left out

- HTTP plumbing is not modelled: routing, the CORS middleware, serialisation, the root and health endpoints, startup and shutdown.
- A request with no Authorization header is rejected by the HTTP security layer before any handler runs, so it is not modelled.
- JWT signing, expiry and decoding are replaced by the token's subject, given as a parameter.
- Password hashing is not modelled. The stored user keeps no password, so login is not modelled either.
- Email syntax checking and normalisation are not modelled: an email is any string.
- Server.Store.GetProducts: the search parameter is matched as a literal, ASCII case-insensitive substring. A regular expression with metacharacters is not modelled.
- Storefront.FilteredProducts: JavaScript's full Unicode lower-casing is reduced to ASCII.
- Prices and totals are whole cents. Floating-point rounding of the sums and the two-decimal formatting of the displayed total are not modelled.
- Server.Store.GetStatsOverview: the revenue sum over up to 1000 orders is not modelled.
- Concurrency is not modelled. Each handler runs atomically, so there is no race between a cart read and its write, and no race between an email check and its insert.
- Orders.PriceOrder: an order item is a free-form dictionary in the source. The model keeps only a product id, an integer quantity and an optional price. Not modelled: an item missing the product id or quantity (a server error), a fractional quantity (priced as a float), a quantity of another type (a server error), and extra keys (stored as sent).
- Negative skip or limit is refused by the database driver. The model takes them as natural numbers.
- Sorting orders by creation time is modelled as newest-stored first. This equals the time ordering when creation times never decrease (`Orders.OrderListNewestFirst`). The database's order among equal times is not modelled.
- Ids (uuid) and the current time are parameters supplied by the caller. A new id is required to be unused; the vanishingly unlikely collision of random uuids is not modelled.
- The storefront's rendering, routing and mock data are not modelled. Only the cart updater, badge count, total and product filter are.
