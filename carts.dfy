/** Cart contents: finding a line, merging an added item into the lines,
    removing a product's lines, and the priced view of a cart. */
module Carts {
  import opened Common
  import opened Models
  import Catalog
  import Seqs

  /** No product appears on two lines of the cart. */
  predicate UniqueProducts(items: seq<CartItem>) {
    forall i, j :: 0 <= i < j < |items| ==> items[i].productId != items[j].productId
  }

  /** The shape every stored cart keeps: one line per product, positive quantities. */
  predicate WellFormed(items: seq<CartItem>) {
    UniqueProducts(items) && forall i :: 0 <= i < |items| ==> items[i].quantity > 0
  }

  /** Index of the first line holding `productId`. */
  function FirstLine(items: seq<CartItem>, productId: string): (k: Option<nat>)
    ensures k.Some? ==> k.value < |items| && items[k.value].productId == productId
    ensures k.Some? ==> forall j :: 0 <= j < k.value ==> items[j].productId != productId
    ensures k.None? <==> forall j :: 0 <= j < |items| ==> items[j].productId != productId
  {
    if items == [] then None
    else if items[0].productId == productId then Some(0)
    else
      var k := FirstLine(items[1..], productId);
      assert forall j :: 1 <= j < |items| ==> items[j] == items[1..][j - 1];
      match k
      case Some(i) => Some(i + 1)
      case None => None
  }

  /** The search loop of `add_to_cart`: stops at the first line for the product. */
  method LocateLine(items: seq<CartItem>, productId: string) returns (k: Option<nat>)
    ensures k == FirstLine(items, productId)
  {
    var i := 0;
    while i < |items|
      invariant 0 <= i <= |items|
      invariant forall j :: 0 <= j < i ==> items[j].productId != productId
    {
      if items[i].productId == productId {
        return Some(i);
      }
      i := i + 1;
    }
    return None;
  }

  /** The lines after adding `item`: the quantity is added to the first line
      for the product, or the item becomes a new last line. */
  function Merge(items: seq<CartItem>, item: CartItem): seq<CartItem> {
    match FirstLine(items, item.productId)
    case Some(k) => items[k := CartItem(item.productId, items[k].quantity + item.quantity)]
    case None => items + [item]
  }

  /** The update of `add_to_cart`: the found line's quantity grows, or the item is appended. */
  method AddLine(items: seq<CartItem>, item: CartItem) returns (merged: seq<CartItem>)
    ensures merged == Merge(items, item)
  {
    var existing := LocateLine(items, item.productId);
    if existing.Some? {
      var k := existing.value;
      merged := items[k := CartItem(item.productId, items[k].quantity + item.quantity)];
    } else {
      merged := items + [item];
    }
  }

  /** Adding a product already in a well-formed cart grows that product's line
      by the added quantity; the line count is unchanged and no other line is touched. */
  lemma {:induction false} MergeEffect(items: seq<CartItem>, item: CartItem, k: nat)
    requires UniqueProducts(items)
    requires k < |items| && items[k].productId == item.productId
    ensures |Merge(items, item)| == |items|
    ensures Merge(items, item)[k] == CartItem(item.productId, items[k].quantity + item.quantity)
    ensures forall j :: 0 <= j < |items| && j != k ==> Merge(items, item)[j] == items[j]
  {
    assert forall j :: 0 <= j < |items| && j != k ==> items[j].productId != item.productId;
    assert FirstLine(items, item.productId) == Some(k);
  }

  /** A product not yet in the cart becomes one new line at the end. */
  lemma {:induction false} MergeAppends(items: seq<CartItem>, item: CartItem)
    requires forall j :: 0 <= j < |items| ==> items[j].productId != item.productId
    ensures Merge(items, item) == items + [item]
  {
    assert FirstLine(items, item.productId).None?;
  }

  /** Merging a positive quantity keeps a cart well-formed. */
  lemma {:induction false} MergeKeepsWellFormed(items: seq<CartItem>, item: CartItem)
    requires WellFormed(items)
    requires item.quantity > 0
    ensures WellFormed(Merge(items, item))
  {
    var f := FirstLine(items, item.productId);
    var m := Merge(items, item);
    if f.Some? {
      assert |m| == |items|;
      assert forall j :: 0 <= j < |m| ==> m[j].productId == items[j].productId;
    } else {
      assert m == items + [item];
      assert forall j :: 0 <= j < |items| ==> m[j] == items[j];
    }
  }

  /** Adding a product twice to a cart that lacks it leaves one line with the
      summed quantity, not two lines. */
  lemma {:induction false} RepeatedAddAccumulates(items: seq<CartItem>, productId: string, a: int, b: int)
    requires FirstLine(items, productId).None?
    ensures Merge(Merge(items, CartItem(productId, a)), CartItem(productId, b)) == items + [CartItem(productId, a + b)]
  {
    var once := Merge(items, CartItem(productId, a));
    assert once == items + [CartItem(productId, a)];
    var f := FirstLine(once, productId);
    assert once[|items|].productId == productId;
    assert forall j :: 0 <= j < |items| ==> once[j] == items[j];
    assert f == Some(|items|);
  }

  /** The cart after `remove_from_cart`: every line for the product is dropped. */
  function RemoveLines(items: seq<CartItem>, productId: string): (r: seq<CartItem>)
    ensures forall x :: x in r <==> x in items && x.productId != productId
  {
    if items == [] then []
    else
      var rest := RemoveLines(items[1..], productId);
      assert forall x :: x in items <==> x == items[0] || x in items[1..];
      if items[0].productId != productId then [items[0]] + rest else rest
  }

  /** The remaining lines keep their relative order. */
  lemma {:induction false} RemoveLinesKeepsOrder(items: seq<CartItem>, productId: string)
    ensures Seqs.IsSubsequence(RemoveLines(items, productId), items)
  {
    if items != [] {
      RemoveLinesKeepsOrder(items[1..], productId);
      var rest := RemoveLines(items[1..], productId);
      if items[0].productId != productId {
        assert ([items[0]] + rest)[1..] == rest;
      }
    }
  }

  /** Removing a product that has no line leaves the cart as it was. */
  lemma {:induction false} RemoveAbsentIsIdentity(items: seq<CartItem>, productId: string)
    requires forall j :: 0 <= j < |items| ==> items[j].productId != productId
    ensures RemoveLines(items, productId) == items
  {
    if items != [] {
      RemoveAbsentIsIdentity(items[1..], productId);
    }
  }

  /** A line put in front of a well-formed cart that lacks its product gives a well-formed cart. */
  lemma ConsKeepsWellFormed(x: CartItem, rest: seq<CartItem>)
    requires WellFormed(rest) && x.quantity > 0
    requires forall y :: y in rest ==> y.productId != x.productId
    ensures WellFormed([x] + rest)
  {
    var r := [x] + rest;
    assert forall j :: 1 <= j < |r| ==> r[j] == rest[j - 1];
  }

  /** Removing lines keeps a cart well-formed. */
  lemma {:induction false} RemoveKeepsWellFormed(items: seq<CartItem>, productId: string)
    requires WellFormed(items)
    ensures WellFormed(RemoveLines(items, productId))
  {
    if items != [] {
      var tail := items[1..];
      assert forall j :: 0 <= j < |tail| ==> tail[j] == items[j + 1];
      RemoveKeepsWellFormed(tail, productId);
      var rest := RemoveLines(tail, productId);
      if items[0].productId != productId {
        forall y | y in rest ensures y.productId != items[0].productId {
          var m :| 0 <= m < |tail| && tail[m] == y;
        }
        ConsKeepsWellFormed(items[0], rest);
      }
    }
  }

  /** One line of the cart as the cart endpoint shows it. */
  datatype ViewLine = ViewLine(product: Product, quantity: int, itemTotal: int)

  datatype CartView = CartView(items: seq<ViewLine>, total: int)

  /** The shown lines of a cart: each line whose product is still available,
      with that product and the line's price; other lines are left out. */
  function ViewLines(products: seq<Product>, items: seq<CartItem>): seq<ViewLine>
    decreases |items|
  {
    if items == [] then []
    else
      var init := ViewLines(products, items[..|items| - 1]);
      var last := items[|items| - 1];
      match Catalog.FindAvailable(products, last.productId)
      case Some(p) => init + [ViewLine(p, last.quantity, p.price * last.quantity)]
      case None => init
  }

  /** The sum of the line totals. */
  function SumTotals(lines: seq<ViewLine>): int
    decreases |lines|
  {
    if lines == [] then 0 else SumTotals(lines[..|lines| - 1]) + lines[|lines| - 1].itemTotal
  }

  /** The cost of the cart's lines at live catalogue prices, an unavailable
      product costing nothing. */
  function LiveCost(products: seq<Product>, items: seq<CartItem>): int
    decreases |items|
  {
    if items == [] then 0
    else
      var last := items[|items| - 1];
      LiveCost(products, items[..|items| - 1]) + Catalog.LineCost(products, last.productId, last.quantity)
  }

  /** The loop of `get_cart`: collects the shown lines and adds up their totals. */
  method BuildCartView(products: seq<Product>, items: seq<CartItem>) returns (v: CartView)
    ensures v.items == ViewLines(products, items)
    ensures v.total == LiveCost(products, items)
  {
    var lines: seq<ViewLine> := [];
    var total := 0;
    var i := 0;
    while i < |items|
      invariant 0 <= i <= |items|
      invariant lines == ViewLines(products, items[..i])
      invariant total == LiveCost(products, items[..i])
    {
      assert items[..i + 1][..i] == items[..i];
      var product := Catalog.FindAvailable(products, items[i].productId);
      if product.Some? {
        var itemTotal := product.value.price * items[i].quantity;
        lines := lines + [ViewLine(product.value, items[i].quantity, itemTotal)];
        total := total + itemTotal;
      }
      i := i + 1;
    }
    assert items[..i] == items;
    v := CartView(lines, total);
  }

  /** The cart view never shows more lines than the cart has, and its total
      is the sum of the shown line totals. */
  lemma {:induction false} ViewTotalIsSumOfLines(products: seq<Product>, items: seq<CartItem>)
    ensures |ViewLines(products, items)| <= |items|
    ensures SumTotals(ViewLines(products, items)) == LiveCost(products, items)
    decreases |items|
  {
    if items != [] {
      var init := items[..|items| - 1];
      ViewTotalIsSumOfLines(products, init);
      var lines := ViewLines(products, items);
      var last := items[|items| - 1];
      var p := Catalog.FindAvailable(products, last.productId);
      if p.Some? {
        assert lines[..|lines| - 1] == ViewLines(products, init);
      }
    }
  }

  /** Every shown line carries an available catalogue product, the quantity of
      a cart line for that product, and price times quantity as its total. */
  lemma {:induction false} ViewLinesAreLive(products: seq<Product>, items: seq<CartItem>)
    ensures forall v :: v in ViewLines(products, items) ==>
      v.product in products && v.product.isAvailable && v.itemTotal == v.product.price * v.quantity &&
      exists j :: 0 <= j < |items| && items[j] == CartItem(v.product.id, v.quantity)
    decreases |items|
  {
    if items != [] {
      var init := items[..|items| - 1];
      ViewLinesAreLive(products, init);
      forall v | v in ViewLines(products, items)
        ensures v.product in products && v.product.isAvailable && v.itemTotal == v.product.price * v.quantity
        ensures exists j :: 0 <= j < |items| && items[j] == CartItem(v.product.id, v.quantity)
      {
        if v in ViewLines(products, init) {
          var j :| 0 <= j < |init| && init[j] == CartItem(v.product.id, v.quantity);
          assert items[j] == init[j];
        } else {
          assert items[|items| - 1] == CartItem(v.product.id, v.quantity);
        }
      }
    }
  }

  /** The cart lines whose product is available, in cart order. */
  function AvailableLines(products: seq<Product>, items: seq<CartItem>): (r: seq<CartItem>)
    ensures forall x :: x in r <==> x in items && Catalog.FindAvailable(products, x.productId).Some?
    decreases |items|
  {
    if items == [] then []
    else
      var init := items[..|items| - 1];
      var last := items[|items| - 1];
      assert items == init + [last];
      var rest := AvailableLines(products, init);
      if Catalog.FindAvailable(products, last.productId).Some? then rest + [last] else rest
  }

  /** The available lines keep the cart's order. */
  lemma {:induction false} AvailableLinesKeepOrder(products: seq<Product>, items: seq<CartItem>)
    ensures Seqs.IsSubsequence(AvailableLines(products, items), items)
    decreases |items|
  {
    if items != [] {
      var init := items[..|items| - 1];
      var last := items[|items| - 1];
      assert items == init + [last];
      AvailableLinesKeepOrder(products, init);
      Seqs.SubsequenceSnoc(AvailableLines(products, init), init, last);
    }
  }

  /** The cart view shows exactly the available lines, one view line per
      available cart line, in the same order and with the same quantity. */
  lemma {:induction false} ViewShowsAvailableLines(products: seq<Product>, items: seq<CartItem>)
    ensures |ViewLines(products, items)| == |AvailableLines(products, items)|
    ensures forall j :: 0 <= j < |ViewLines(products, items)| ==>
      ViewLines(products, items)[j].product.id == AvailableLines(products, items)[j].productId &&
      ViewLines(products, items)[j].quantity == AvailableLines(products, items)[j].quantity
    decreases |items|
  {
    if items != [] {
      ViewShowsAvailableLines(products, items[..|items| - 1]);
    }
  }

  /** When every product in the cart is available, each cart line is shown, in
      order, with its own quantity. */
  lemma {:induction false} AllAvailableAllShown(products: seq<Product>, items: seq<CartItem>)
    requires forall j :: 0 <= j < |items| ==> Catalog.FindAvailable(products, items[j].productId).Some?
    ensures |ViewLines(products, items)| == |items|
    ensures forall j :: 0 <= j < |items| ==>
      ViewLines(products, items)[j].product.id == items[j].productId &&
      ViewLines(products, items)[j].quantity == items[j].quantity
    decreases |items|
  {
    if items != [] {
      var init := items[..|items| - 1];
      AllAvailableAllShown(products, init);
    }
  }
}
