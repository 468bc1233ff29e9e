/**
  The shopping cart (server/src/Controller/product.controller.js:465-681 and
  the cart schema in server/src/DB-Models/user.model.js:15-25, 75-85). Every
  handler ends by recomputing the two stored totals from the lines.
*/
module Cart {
  import opened Wrappers
  import opened Domain
  import opened Pricing

  // ---------------------------------------------------------------- searching

  function ForProduct(productId: Id): CartItem -> bool {
    (c: CartItem) => c.productId == productId
  }

  function WithItemId(itemId: Id): CartItem -> bool {
    (c: CartItem) => c.itemId == itemId
  }

  /** The quantity of a product in the cart: that of its first line, or 0. */
  function QuantityOf(items: seq<CartItem>, productId: Id): int {
    match FirstIndex(items, ForProduct(productId))
    case Some(i) => items[i].quantity
    case None => 0
  }

  // ---------------------------------------------------------------- totals

  function SumQuantities(items: seq<CartItem>): int {
    if |items| == 0 then 0 else items[0].quantity + SumQuantities(items[1..])
  }

  function SumPrices(items: seq<CartItem>): int {
    if |items| == 0 then 0 else items[0].discounted * items[0].quantity + SumPrices(items[1..])
  }

  /** Both sums distribute over concatenation. */
  lemma {:induction false} SumsAppend(a: seq<CartItem>, b: seq<CartItem>)
    ensures SumQuantities(a + b) == SumQuantities(a) + SumQuantities(b)
    ensures SumPrices(a + b) == SumPrices(a) + SumPrices(b)
  {
    if |a| == 0 {
      assert a + b == b;
    } else {
      assert (a + b)[1..] == a[1..] + b;
      SumsAppend(a[1..], b);
    }
  }

  /** The stored totals are the item count and the price sum of the lines. */
  predicate TotalsConsistent(c: Cart) {
    c.totalItems == SumQuantities(c.items) && c.totalPrice == SumPrices(c.items)
  }

  /** The cart after a handler saves `items` and recomputes both totals. */
  function WithTotals(items: seq<CartItem>): (c: Cart)
    ensures c.items == items && TotalsConsistent(c)
  {
    Cart(items, SumQuantities(items), SumPrices(items))
  }

  // ---------------------------------------------------------------- invariants

  /** At most one line per product: adding a product already present grows its line. */
  predicate UniqueProducts(items: seq<CartItem>) {
    forall i, j :: 0 <= i < j < |items| ==> items[i].productId != items[j].productId
  }

  /** Line ids are distinct (they are generated by the database). */
  predicate UniqueItemIds(items: seq<CartItem>) {
    forall i, j :: 0 <= i < j < |items| ==> items[i].itemId != items[j].itemId
  }

  /** Every line of a catalog product holds between 1 and the product's maximum. */
  predicate CartWithinLimits(c: Cart, catalog: Catalog) {
    forall x :: x in c.items && x.productId in catalog ==>
      0 < x.quantity <= catalog[x.productId].maxQuantity
  }

  /** Every line of a catalog product carries the tier price its quantity earns from the regular price. */
  predicate CartPriced(c: Cart, catalog: Catalog) {
    forall x :: x in c.items && x.productId in catalog ==>
      x.discounted == ApplyTiers(catalog[x.productId].regular, catalog[x.productId].tiers, x.quantity)
  }

  /** Every element of `s[i := v]` is `v` or an element of `s`. */
  lemma UpdateMembers<T>(s: seq<T>, i: nat, v: T)
    requires i < |s|
    ensures forall x :: x in s[i := v] ==> x == v || x in s
  {
    forall x | x in s[i := v]
      ensures x == v || x in s
    {
      var k :| 0 <= k < |s[i := v]| && s[i := v][k] == x;
      if k != i {
        assert s[k] == x;
      }
    }
  }

  // ---------------------------------------------------------------- add

  /** What `addToCart` checks before writing. */
  predicate AddAllowed(catalog: Catalog, cart: Cart, productId: Id, quantity: int) {
    && productId in catalog && quantity > 0
    && catalog[productId].stock == "in_stock"
    && quantity <= catalog[productId].maxQuantity
    && QuantityOf(cart.items, productId) + quantity <= catalog[productId].maxQuantity
  }

  /**
    addToCart: a product already in the cart has its first line grown and
    re-priced from that line's price; otherwise a line is appended priced from
    the regular price. The product's deleted flag is not consulted.
  */
  function AddToCart(catalog: Catalog, cart: Cart, productId: Id, quantity: int, newItemId: Id): (r: Result<Cart, Error>)
    ensures r.Ok? <==> AddAllowed(catalog, cart, productId, quantity)
    ensures productId !in catalog ==> r == Err(ServerError)
    ensures r.Ok? ==> TotalsConsistent(r.value)
    ensures r.Ok? ==> QuantityOf(r.value.items, productId) == QuantityOf(cart.items, productId) + quantity
    ensures r.Ok? ==> FirstIndex(r.value.items, ForProduct(productId)).Some?
    ensures r.Ok? ==> |r.value.items| == |cart.items| + (if FirstIndex(cart.items, ForProduct(productId)).None? then 1 else 0)
    ensures r.Ok? ==> forall j :: 0 <= j < |cart.items| && cart.items[j].productId != productId
                        ==> r.value.items[j] == cart.items[j]
  {
    match Lookup(catalog, productId)
    case None => Err(ServerError)
    case Some(p) =>
      if quantity <= 0 then Err(InvalidQuantity)
      else if p.stock != "in_stock" then Err(OutOfStock)
      else if quantity > p.maxQuantity then Err(ExceedsMaxQuantity)
      else match FirstIndex(cart.items, ForProduct(productId))
        case Some(i) =>
          var e := cart.items[i];
          if e.quantity + quantity > p.maxQuantity then Err(ExceedsMaxQuantity)
          else
            var q := e.quantity + quantity;
            var items := cart.items[i := e.(quantity := q, discounted := ApplyTiers(e.discounted, p.tiers, q))];
            FirstIndexIs(items, ForProduct(productId), i);
            Ok(WithTotals(items))
        case None =>
          var items := cart.items + [CartItem(newItemId, productId, p.regular, ApplyTiers(p.regular, p.tiers, quantity),
                                              quantity, true)];
          FirstIndexIs(items, ForProduct(productId), |cart.items|);
          Ok(WithTotals(items))
  }

  /** Adding keeps one line per product. */
  lemma AddKeepsProductsUnique(catalog: Catalog, cart: Cart, productId: Id, quantity: int, newItemId: Id)
    requires UniqueProducts(cart.items)
    requires AddToCart(catalog, cart, productId, quantity, newItemId).Ok?
    ensures UniqueProducts(AddToCart(catalog, cart, productId, quantity, newItemId).value.items)
  {
  }

  /**
    Adding keeps every line within its product's limits and priced by its
    quantity: a grown line re-walks the tiers from a price they produced for
    a smaller quantity, which equals walking them afresh.
  */
  lemma AddKeepsCartValid(catalog: Catalog, cart: Cart, productId: Id, quantity: int, newItemId: Id)
    requires CartWithinLimits(cart, catalog) && CartPriced(cart, catalog)
    requires AddToCart(catalog, cart, productId, quantity, newItemId).Ok?
    ensures CartWithinLimits(AddToCart(catalog, cart, productId, quantity, newItemId).value, catalog)
    ensures CartPriced(AddToCart(catalog, cart, productId, quantity, newItemId).value, catalog)
  {
    var p := catalog[productId];
    match FirstIndex(cart.items, ForProduct(productId))
    case Some(i) =>
      var e := cart.items[i];
      var q := e.quantity + quantity;
      var v := e.(quantity := q, discounted := ApplyTiers(e.discounted, p.tiers, q));
      assert e in cart.items;
      ApplyTiersGrow(p.regular, p.tiers, e.quantity, q);
      UpdateMembers(cart.items, i, v);
    case None =>
  }

  /**
    Adding a new product in two steps gives the cart one addition of the sum
    would give, price included.
  */
  lemma AddTwiceIsAddOnce(catalog: Catalog, cart: Cart, productId: Id, q1: int, q2: int, n1: Id, n2: Id)
    requires FirstIndex(cart.items, ForProduct(productId)).None?
    requires AddToCart(catalog, cart, productId, q1, n1).Ok?
    requires q2 > 0 && q1 + q2 <= catalog[productId].maxQuantity
    ensures AddToCart(catalog, AddToCart(catalog, cart, productId, q1, n1).value, productId, q2, n2)
         == AddToCart(catalog, cart, productId, q1 + q2, n1)
  {
    var p := catalog[productId];
    var x1 := CartItem(n1, productId, p.regular, ApplyTiers(p.regular, p.tiers, q1), q1, true);
    var r1 := AddToCart(catalog, cart, productId, q1, n1).value;
    assert r1.items == cart.items + [x1];
    assert FirstIndex(r1.items, ForProduct(productId)) == Some(|cart.items|);
    ApplyTiersGrow(p.regular, p.tiers, q1, q1 + q2);
    var x12 := CartItem(n1, productId, p.regular, ApplyTiers(p.regular, p.tiers, q1 + q2), q1 + q2, true);
    assert r1.items[|cart.items| := x1.(quantity := q1 + q2, discounted := ApplyTiers(x1.discounted, p.tiers, q1 + q2))]
        == cart.items + [x12];
  }

  // ---------------------------------------------------------------- remove

  /** The lines whose id differs from `itemId`, in order. */
  function Without(items: seq<CartItem>, itemId: Id): (r: seq<CartItem>)
    ensures |r| <= |items|
    ensures forall j :: 0 <= j < |r| ==> r[j].itemId != itemId
  {
    if |items| == 0 then []
    else if items[0].itemId == itemId then Without(items[1..], itemId)
    else [items[0]] + Without(items[1..], itemId)
  }

  /** The lines kept are exactly those whose id differs. */
  lemma {:induction false} WithoutMembers(items: seq<CartItem>, itemId: Id)
    ensures forall x :: x in Without(items, itemId) <==> x in items && x.itemId != itemId
  {
    if |items| > 0 {
      WithoutMembers(items[1..], itemId);
      assert items == [items[0]] + items[1..];
    }
  }

  /** Removing an id no line carries changes nothing. */
  lemma {:induction false} WithoutAbsent(items: seq<CartItem>, itemId: Id)
    requires forall j :: 0 <= j < |items| ==> items[j].itemId != itemId
    ensures Without(items, itemId) == items
  {
    if |items| > 0 {
      WithoutAbsent(items[1..], itemId);
      assert items == [items[0]] + items[1..];
    }
  }

  /** Removing the id only the line at `k` carries drops exactly that line. */
  lemma {:induction false} WithoutOne(items: seq<CartItem>, k: nat)
    requires k < |items|
    requires forall j :: 0 <= j < |items| && j != k ==> items[j].itemId != items[k].itemId
    ensures Without(items, items[k].itemId) == items[..k] + items[k + 1..]
  {
    var id := items[k].itemId;
    var tail := items[1..];
    if k == 0 {
      forall j | 0 <= j < |tail|
        ensures tail[j].itemId != id
      {
        assert tail[j] == items[j + 1];
      }
      WithoutAbsent(tail, id);
      assert items[..0] + items[1..] == tail;
    } else {
      assert tail[k - 1] == items[k];
      forall j | 0 <= j < |tail| && j != k - 1
        ensures tail[j].itemId != tail[k - 1].itemId
      {
        assert tail[j] == items[j + 1];
      }
      WithoutOne(tail, k - 1);
      calc {
        Without(items, id);
        [items[0]] + Without(tail, id);
        [items[0]] + (tail[..k - 1] + tail[k..]);
        { assert items[..k] == [items[0]] + tail[..k - 1]; assert items[k + 1..] == tail[k..]; }
        items[..k] + items[k + 1..];
      }
    }
  }

  /** removeFromCart: refuses an empty cart and a missing id; drops the lines with the id (none is fine). */
  function RemoveFromCart(cart: Cart, itemId: Id): (r: Result<Cart, Error>)
    ensures r.Ok? <==> |cart.items| > 0 && itemId != ""
    ensures |cart.items| == 0 ==> r == Err(CartEmpty)
    ensures r.Ok? ==> TotalsConsistent(r.value)
    ensures r.Ok? ==> forall x :: x in r.value.items <==> x in cart.items && x.itemId != itemId
  {
    if |cart.items| == 0 then Err(CartEmpty)
    else if itemId == "" then Err(MissingField)
    else WithoutMembers(cart.items, itemId); Ok(WithTotals(Without(cart.items, itemId)))
  }

  /** Removing a line lowers both totals by exactly that line's contribution. */
  lemma RemoveSubtractsLine(cart: Cart, k: nat)
    requires UniqueItemIds(cart.items) && TotalsConsistent(cart)
    requires k < |cart.items| && cart.items[k].itemId != ""
    ensures var r := RemoveFromCart(cart, cart.items[k].itemId);
      && r.Ok?
      && r.value.items == cart.items[..k] + cart.items[k + 1..]
      && r.value.totalItems == cart.totalItems - cart.items[k].quantity
      && r.value.totalPrice == cart.totalPrice - cart.items[k].discounted * cart.items[k].quantity
  {
    WithoutOne(cart.items, k);
    SumsAppend(cart.items[..k], cart.items[k + 1..]);
    SumsAppend(cart.items[..k], cart.items[k..]);
    assert cart.items == cart.items[..k] + cart.items[k..];
    assert cart.items[k..][1..] == cart.items[k + 1..];
  }

  /** An id no line carries is not an error: the lines stay, and only the totals are recomputed. */
  lemma RemoveUnknownIdKeepsLines(cart: Cart, itemId: Id)
    requires |cart.items| > 0 && itemId != ""
    requires forall j :: 0 <= j < |cart.items| ==> cart.items[j].itemId != itemId
    ensures RemoveFromCart(cart, itemId) == Ok(WithTotals(cart.items))
  {
    WithoutAbsent(cart.items, itemId);
  }

  /** Removing keeps every invariant of the remaining lines. */
  lemma RemoveKeepsCartValid(catalog: Catalog, cart: Cart, itemId: Id)
    requires CartWithinLimits(cart, catalog) && CartPriced(cart, catalog)
    requires RemoveFromCart(cart, itemId).Ok?
    ensures CartWithinLimits(RemoveFromCart(cart, itemId).value, catalog)
    ensures CartPriced(RemoveFromCart(cart, itemId).value, catalog)
  {
  }

  // ---------------------------------------------------------------- update quantity

  /** The checks both versions of the quantity update make, up to finding the line's product. */
  predicate UpdateReachesProduct(catalog: Catalog, cart: Cart, itemId: Id, change: int) {
    && itemId != "" && change >= 0 && |cart.items| > 0
    && FirstIndex(cart.items, WithItemId(itemId)).Some?
    && cart.items[FirstIndex(cart.items, WithItemId(itemId)).value].productId in catalog
    && catalog[cart.items[FirstIndex(cart.items, WithItemId(itemId)).value].productId].stock == "in_stock"
  }

  /**
    updateCartItemQuantity as written: `change` becomes the line's quantity
    (0 removes the line). Its bound check reads a maximum the cart line does
    not store, so it never refuses; the tier walk starts from the line's
    current price and only moves it when a tier is reached.
  */
  function UpdateQuantityAsWritten(catalog: Catalog, cart: Cart, itemId: Id, change: int): (r: Result<Cart, Error>)
    ensures r.Ok? <==> UpdateReachesProduct(catalog, cart, itemId, change)
    ensures r.Ok? ==> TotalsConsistent(r.value)
    ensures r.Ok? && change == 0 ==> forall x :: x in r.value.items <==> x in cart.items && x.itemId != itemId
    ensures r.Ok? && change > 0 ==>
      var i := FirstIndex(cart.items, WithItemId(itemId)).value;
      && |r.value.items| == |cart.items|
      && r.value.items[i].quantity == change
      && (forall j :: 0 <= j < |cart.items| && j != i ==> r.value.items[j] == cart.items[j])
  {
    if itemId == "" || change < 0 then Err(MissingField)
    else if |cart.items| == 0 then Err(CartEmpty)
    else match FirstIndex(cart.items, WithItemId(itemId))
      case None => Err(LineNotFound)
      case Some(i) =>
        var e := cart.items[i];
        match Lookup(catalog, e.productId)
        case None => Err(ServerError)
        case Some(p) =>
          if p.stock != "in_stock" then Err(OutOfStock)
          else if change == 0 then WithoutMembers(cart.items, itemId); Ok(WithTotals(Without(cart.items, itemId)))
          else Ok(WithTotals(cart.items[i := e.(quantity := change, discounted := ApplyTiers(e.discounted, p.tiers, change))]))
  }

  /** As written, a quantity above the product's maximum is saved. */
  lemma UpdateAsWrittenExceedsLimit(catalog: Catalog, cart: Cart, itemId: Id, change: int)
    requires UpdateReachesProduct(catalog, cart, itemId, change)
    requires change > catalog[cart.items[FirstIndex(cart.items, WithItemId(itemId)).value].productId].maxQuantity
    requires change > 0
    ensures UpdateQuantityAsWritten(catalog, cart, itemId, change).Ok?
    ensures !CartWithinLimits(UpdateQuantityAsWritten(catalog, cart, itemId, change).value, catalog)
  {
    var i := FirstIndex(cart.items, WithItemId(itemId)).value;
    var r := UpdateQuantityAsWritten(catalog, cart, itemId, change).value;
    assert r.items[i] in r.items;
  }

  /**
    As written, lowering a line below its tier keeps the tier price: a line of
    5 at tier price 80 (regular 100, tier from 5) set to 2 still costs 80.
  */
  lemma UpdateAsWrittenKeepsStalePrice()
    ensures var p := Product("p", "u", 100, [Tier(5, 80)], 10, "in_stock", "active", false, None, Some("s"));
      var catalog := map["p" := p];
      var cart := WithTotals([CartItem("i", "p", 100, 80, 5, true)]);
      && CartPriced(cart, catalog) && CartWithinLimits(cart, catalog)
      && UpdateQuantityAsWritten(catalog, cart, "i", 2).Ok?
      && UpdateQuantityAsWritten(catalog, cart, "i", 2).value.items == [CartItem("i", "p", 100, 80, 2, true)]
      && !CartPriced(UpdateQuantityAsWritten(catalog, cart, "i", 2).value, catalog)
  {
    var p := Product("p", "u", 100, [Tier(5, 80)], 10, "in_stock", "active", false, None, Some("s"));
    var catalog := map["p" := p];
    var x := CartItem("i", "p", 100, 80, 5, true);
    var cart := WithTotals([x]);
    assert FirstIndex(cart.items, WithItemId("i")) == Some(0);
    var r := UpdateQuantityAsWritten(catalog, cart, "i", 2).value;
    assert r.items == [x.(quantity := 2)];
    assert r.items[0] in r.items;
  }

  /** What the corrected quantity update checks before writing. */
  predicate UpdateAllowed(catalog: Catalog, cart: Cart, itemId: Id, change: int) {
    && UpdateReachesProduct(catalog, cart, itemId, change)
    && change <= catalog[cart.items[FirstIndex(cart.items, WithItemId(itemId)).value].productId].maxQuantity
  }

  /**
    updateCartItemQuantity with the bound taken from the product and the price
    re-derived from the regular price, as adding the line anew would.
  */
  function UpdateQuantity(catalog: Catalog, cart: Cart, itemId: Id, change: int): (r: Result<Cart, Error>)
    ensures r.Ok? <==> UpdateAllowed(catalog, cart, itemId, change)
    ensures r.Ok? ==> TotalsConsistent(r.value)
    ensures r.Ok? && change == 0 ==> forall x :: x in r.value.items <==> x in cart.items && x.itemId != itemId
    ensures r.Ok? && change > 0 ==>
      var i := FirstIndex(cart.items, WithItemId(itemId)).value;
      && |r.value.items| == |cart.items|
      && r.value.items[i].quantity == change
      && (forall j :: 0 <= j < |cart.items| && j != i ==> r.value.items[j] == cart.items[j])
  {
    if itemId == "" || change < 0 then Err(MissingField)
    else if |cart.items| == 0 then Err(CartEmpty)
    else match FirstIndex(cart.items, WithItemId(itemId))
      case None => Err(LineNotFound)
      case Some(i) =>
        var e := cart.items[i];
        match Lookup(catalog, e.productId)
        case None => Err(ServerError)
        case Some(p) =>
          if p.stock != "in_stock" then Err(OutOfStock)
          else if change > p.maxQuantity then Err(ExceedsMaxQuantity)
          else if change == 0 then WithoutMembers(cart.items, itemId); Ok(WithTotals(Without(cart.items, itemId)))
          else Ok(WithTotals(cart.items[i := e.(quantity := change, discounted := ApplyTiers(p.regular, p.tiers, change))]))
  }

  /** The corrected update keeps every line within its limits and priced by its quantity. */
  lemma UpdateKeepsCartValid(catalog: Catalog, cart: Cart, itemId: Id, change: int)
    requires CartWithinLimits(cart, catalog) && CartPriced(cart, catalog)
    requires UpdateQuantity(catalog, cart, itemId, change).Ok?
    ensures CartWithinLimits(UpdateQuantity(catalog, cart, itemId, change).value, catalog)
    ensures CartPriced(UpdateQuantity(catalog, cart, itemId, change).value, catalog)
  {
    if change > 0 {
      var i := FirstIndex(cart.items, WithItemId(itemId)).value;
      var e := cart.items[i];
      var p := catalog[e.productId];
      UpdateMembers(cart.items, i, e.(quantity := change, discounted := ApplyTiers(p.regular, p.tiers, change)));
    }
  }

  /** Setting a quantity of 0 removes the line identically in both versions. */
  lemma UpdateVersionsAgree(catalog: Catalog, cart: Cart, itemId: Id)
    requires UpdateAllowed(catalog, cart, itemId, 0)
    ensures UpdateQuantity(catalog, cart, itemId, 0) == UpdateQuantityAsWritten(catalog, cart, itemId, 0)
  {
  }
}
