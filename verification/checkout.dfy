/**
  Checkout (server/src/Controller/auth.controller.js:1151-1241, 1298-1341,
  1362-1484): an order is built from the cart and the delivery address before
  payment, placed once the payment gateway reports it paid, and may later be
  included or excluded by staff. The gateway's answers are parameters.
*/
module Checkout {
  import opened Wrappers
  import opened Domain
  import opened Pricing
  import opened Aggregation
  import Cart
  import Addresses
  import Approval

  // ---------------------------------------------------------------- building lines

  /** A cart line survives into the order when its product exists, is not deleted and is in stock. */
  predicate Orderable(catalog: Catalog, item: CartItem) {
    item.productId in catalog && !catalog[item.productId].deleted && catalog[item.productId].stock == "in_stock"
  }

  /** A kept cart line must stay strictly below its product's maximum, or the whole order is refused. */
  predicate WithinOrderLimit(catalog: Catalog, item: CartItem) {
    Orderable(catalog, item) ==> item.quantity < catalog[item.productId].maxQuantity
  }

  /** The starting unit price of an order line, `regular || 1`: a regular price of 0 starts at 1. */
  function OrderStartPrice(regular: int): int {
    if regular == 0 then 1 else regular
  }

  /** The order line of a kept cart line: priced afresh from the product, its shop copied (see `ShopsKnown`). */
  function OrderLine(item: CartItem, p: Product): LineItem {
    NewLine(item.productId, item.quantity, p.regular, ApplyTiers(OrderStartPrice(p.regular), p.tiers, item.quantity),
            p.maxQuantity, p.shopId.GetOr(""))
  }

  /**
    The unit price of an order line is the price of the last tier, in array
    order, that its quantity reaches, or `regular || 1` when none is reached.
  */
  lemma OrderLinePrice(item: CartItem, p: Product)
    ensures var l := OrderLine(item, p);
      && l.productId == item.productId && l.quantity == item.quantity && l.regular == p.regular
      && l.maxQuantity == p.maxQuantity
      && l.discounted == (match LastMatch(p.tiers, item.quantity)
                          case Some(i) => p.tiers[i].price
                          case None => if p.regular == 0 then 1 else p.regular)
  {
    ApplyTiersIsLastMatch(OrderStartPrice(p.regular), p.tiers, item.quantity);
  }

  /** Reference definition of an order's lines: one `OrderLine` per orderable cart line, in cart order. */
  function KeptLines(catalog: Catalog, items: seq<CartItem>): (r: seq<LineItem>)
    ensures |r| <= |items|
    decreases |items|
  {
    if |items| == 0 then []
    else if Orderable(catalog, items[0]) then [OrderLine(items[0], catalog[items[0].productId])] + KeptLines(catalog, items[1..])
    else KeptLines(catalog, items[1..])
  }

  /** Every kept line is the order line of an orderable cart line. */
  lemma {:induction false} KeptLinesFromOrderable(catalog: Catalog, items: seq<CartItem>)
    ensures forall l :: l in KeptLines(catalog, items) ==>
      exists i :: 0 <= i < |items| && Orderable(catalog, items[i]) && l == OrderLine(items[i], catalog[items[i].productId])
    decreases |items|
  {
    if |items| > 0 {
      KeptLinesFromOrderable(catalog, items[1..]);
      forall l | l in KeptLines(catalog, items)
        ensures exists i :: 0 <= i < |items| && Orderable(catalog, items[i])
                            && l == OrderLine(items[i], catalog[items[i].productId])
      {
        if l in KeptLines(catalog, items[1..]) {
          var i :| 0 <= i < |items[1..]| && Orderable(catalog, items[1..][i])
                   && l == OrderLine(items[1..][i], catalog[items[1..][i].productId]);
          assert items[1..][i] == items[i + 1];
        }
      }
    }
  }

  /** Every orderable cart line has its order line among the kept lines. */
  lemma {:induction false} KeptLinesCoverOrderable(catalog: Catalog, items: seq<CartItem>)
    ensures forall i :: 0 <= i < |items| && Orderable(catalog, items[i]) ==>
      OrderLine(items[i], catalog[items[i].productId]) in KeptLines(catalog, items)
    decreases |items|
  {
    if |items| > 0 {
      KeptLinesCoverOrderable(catalog, items[1..]);
      forall i | 1 <= i < |items| && Orderable(catalog, items[i])
        ensures OrderLine(items[i], catalog[items[i].productId]) in KeptLines(catalog, items)
      {
        assert items[i] == items[1..][i - 1];
      }
    }
  }

  /** No kept line carries a product that is missing, deleted or out of stock. */
  lemma KeptLinesSkipUnorderable(catalog: Catalog, items: seq<CartItem>, productId: Id)
    requires productId !in catalog || catalog[productId].deleted || catalog[productId].stock != "in_stock"
    ensures forall l :: l in KeptLines(catalog, items) ==> l.productId != productId
  {
    KeptLinesFromOrderable(catalog, items);
  }

  /** The lines `_createOrderDb` builds from the cart, in cart order, or the limit error that aborts it. */
  function BuildLines(catalog: Catalog, items: seq<CartItem>): (r: Result<seq<LineItem>, Error>)
    ensures r.Ok? <==> forall i :: 0 <= i < |items| ==> WithinOrderLimit(catalog, items[i])
    ensures r.Err? ==> r.error == ExceedsMaxQuantity
    ensures r.Ok? ==> |r.value| <= |items|
    ensures r.Ok? ==> (|r.value| == 0 <==> forall i :: 0 <= i < |items| ==> !Orderable(catalog, items[i]))
    ensures r.Ok? ==> forall k :: 0 <= k < |r.value| ==>
      && r.value[k].status == ItemPending && r.value[k].approval == ShopPending
      && r.value[k].quantity < r.value[k].maxQuantity
      && r.value[k].totalPrice == r.value[k].quantity * r.value[k].discounted
    ensures r.Ok? ==> r.value == KeptLines(catalog, items)
    decreases |items|
  {
    if |items| == 0 then Ok([])
    else
      var item := items[0];
      var rest := BuildLines(catalog, items[1..]);
      assert forall i :: 1 <= i < |items| ==> items[i] == items[1..][i - 1];
      if Orderable(catalog, item) && item.quantity >= catalog[item.productId].maxQuantity then Err(ExceedsMaxQuantity)
      else if rest.Err? then rest
      else if Orderable(catalog, item) then Ok([OrderLine(item, catalog[item.productId])] + rest.value)
      else rest
  }

  function SumLineQuantities(ps: seq<LineItem>): int {
    if |ps| == 0 then 0 else ps[0].quantity + SumLineQuantities(ps[1..])
  }

  function SumLineTotals(ps: seq<LineItem>): int {
    if |ps| == 0 then 0 else ps[0].totalPrice + SumLineTotals(ps[1..])
  }

  /** The order's stored totals are the sums over its lines. */
  predicate OrderTotalsConsistent(o: Order) {
    o.totalItems == SumLineQuantities(o.products) && o.totalAmount == SumLineTotals(o.products)
  }

  /** Every cart line is kept and priced as the order will price it. */
  predicate CartOrderable(catalog: Catalog, items: seq<CartItem>) {
    forall i :: 0 <= i < |items| ==>
      && Orderable(catalog, items[i])
      && catalog[items[i].productId].regular != 0
      && items[i].discounted == ApplyTiers(catalog[items[i].productId].regular, catalog[items[i].productId].tiers,
                                            items[i].quantity)
  }

  /**
    When every cart line is kept and carries the price its quantity earns, the
    built lines add up to the cart's own sums.
  */
  lemma {:induction false} BuildLinesMatchCartSums(catalog: Catalog, items: seq<CartItem>)
    requires CartOrderable(catalog, items)
    requires BuildLines(catalog, items).Ok?
    ensures SumLineQuantities(BuildLines(catalog, items).value) == Cart.SumQuantities(items)
    ensures SumLineTotals(BuildLines(catalog, items).value) == Cart.SumPrices(items)
    decreases |items|
  {
    if |items| > 0 {
      assert forall i :: 1 <= i < |items| ==> items[i] == items[1..][i - 1];
      BuildLinesMatchCartSums(catalog, items[1..]);
      var lines := BuildLines(catalog, items).value;
      var l := OrderLine(items[0], catalog[items[0].productId]);
      assert lines == [l] + BuildLines(catalog, items[1..]).value;
      assert lines[1..] == BuildLines(catalog, items[1..]).value;
      assert l.totalPrice == items[0].discounted * items[0].quantity;
    }
  }

  // ---------------------------------------------------------------- creating the order

  /** The roles the order schema accepts for its buyer. */
  predicate BuyerRole(role: Role) {
    role == Customer || role == SupperCustomer
  }

  /** Every kept product has a shop: the order schema requires one on each line. */
  predicate ShopsKnown(catalog: Catalog, items: seq<CartItem>) {
    forall i :: 0 <= i < |items| && Orderable(catalog, items[i]) ==> catalog[items[i].productId].shopId.Some?
  }

  /**
    Everything `_createOrderDb` needs: a non-empty cart, a delivery address,
    lines within limits, one kept line, and an order the schema accepts (a
    buyer role, a shop on each line).
  */
  predicate CreateAllowed(catalog: Catalog, account: Account) {
    && account.cart.totalItems != 0
    && Addresses.DeliveryAddress(account.addresses).Some?
    && (forall i :: 0 <= i < |account.cart.items| ==> WithinOrderLimit(catalog, account.cart.items[i]))
    && (exists i :: 0 <= i < |account.cart.items| && Orderable(catalog, account.cart.items[i]))
    && BuyerRole(account.role)
    && ShopsKnown(catalog, account.cart.items)
  }

  /**
    _createOrderDb: the order is created before payment, in `paymentInitiated`
    (which has no rank), marked included, paid online, shipped to the delivery
    address, its totals summed over its lines. Products missing, deleted or out
    of stock are skipped without notice.
  */
  function CreateOrder(catalog: Catalog, account: Account, orderId: Id): (r: Result<Order, Error>)
    ensures r.Ok? <==> CreateAllowed(catalog, account)
    ensures account.cart.totalItems == 0 ==> r == Err(CartEmpty)
    ensures r.Ok? ==>
      && r.value.orderId == orderId && r.value.buyer == Buyer(account.id, account.role)
      && r.value.status == PaymentInitiated && Rank(r.value.status).None?
      && r.value.included && r.value.paymentType == OnlinePayment
      && r.value.address == account.addresses[Addresses.DeliveryAddress(account.addresses).value].fields
      && OrderTotalsConsistent(r.value)
      && r.value.products == KeptLines(catalog, account.cart.items)
      && 0 < |r.value.products| <= |account.cart.items|
      && (forall k :: 0 <= k < |r.value.products| ==>
            r.value.products[k].approval == ShopPending && r.value.products[k].status == ItemPending
            && r.value.products[k].quantity < r.value.products[k].maxQuantity)
  {
    if account.cart.totalItems == 0 then Err(CartEmpty)
    else match Addresses.DeliveryAddress(account.addresses)
      case None => Err(NoDeliveryAddress)
      case Some(a) =>
        match BuildLines(catalog, account.cart.items)
        case Err(e) => Err(e)
        case Ok(lines) =>
          if |lines| == 0 then Err(NoValidProducts)
          else if !BuyerRole(account.role) || !ShopsKnown(catalog, account.cart.items) then Err(ServerError)
          else Ok(Order(orderId, Buyer(account.id, account.role), true, lines, account.addresses[a].fields,
                        SumLineQuantities(lines), SumLineTotals(lines), PaymentInitiated, OnlinePayment))
  }

  /**
    The cart accepts a line at exactly its product's maximum, but the order
    refuses it: such a cart can never be checked out.
  */
  lemma CartAtMaximumCannotOrder(catalog: Catalog, account: Account, productId: Id, itemId: Id)
    requires productId in catalog && !catalog[productId].deleted
    requires account.cart.items == []
    requires Cart.AddToCart(catalog, account.cart, productId, catalog[productId].maxQuantity, itemId).Ok?
    ensures var c := Cart.AddToCart(catalog, account.cart, productId, catalog[productId].maxQuantity, itemId).value;
      && c.items[0].quantity == catalog[productId].maxQuantity
      && CreateOrder(catalog, account.(cart := c), productId).Err?
  {
    var c := Cart.AddToCart(catalog, account.cart, productId, catalog[productId].maxQuantity, itemId).value;
    assert c.items == [c.items[0]];
    assert !WithinOrderLimit(catalog, c.items[0]);
  }

  /**
    The cart accepts a deleted product; order creation then skips its line
    without notice: an order created from that cart has no line of it.
  */
  lemma DeletedProductAddedButNotOrdered(catalog: Catalog, account: Account, productId: Id, quantity: int,
                                         itemId: Id, orderId: Id)
    requires productId in catalog && catalog[productId].deleted
    requires Cart.AddAllowed(catalog, account.cart, productId, quantity)
    ensures Cart.AddToCart(catalog, account.cart, productId, quantity, itemId).Ok?
    ensures var c := Cart.AddToCart(catalog, account.cart, productId, quantity, itemId).value;
      && (exists x :: x in c.items && x.productId == productId)
      && var r := CreateOrder(catalog, account.(cart := c), orderId);
         r.Ok? ==> forall k :: 0 <= k < |r.value.products| ==> r.value.products[k].productId != productId
  {
    var c := Cart.AddToCart(catalog, account.cart, productId, quantity, itemId).value;
    var k := FirstIndex(c.items, Cart.ForProduct(productId)).value;
    assert c.items[k] in c.items;
    KeptLinesSkipUnorderable(catalog, c.items, productId);
  }

  // ---------------------------------------------------------------- starting a payment

  /** What getSessionId leaves saved, and the error it answers with (None: success). */
  datatype CheckoutReply = CheckoutReply(saved: Option<Order>, answer: Option<Error>)

  /**
    getSessionId: with a non-empty cart and a payment session from the gateway
    (`gatewayOrderId`, None when the gateway fails), the order is created; its
    amount is then compared with the cart's stored total, and a mismatch is
    answered as an error although the order stays saved.
  */
  function StartCheckout(catalog: Catalog, account: Account, gatewayOrderId: Option<Id>): (r: CheckoutReply)
    ensures r.saved.Some? <==> gatewayOrderId.Some? && CreateAllowed(catalog, account)
    ensures r.saved.Some? ==> r.saved.value.status == PaymentInitiated && r.saved.value.orderId == gatewayOrderId.value
    ensures r.answer.None? <==> r.saved.Some? && r.saved.value.totalAmount == account.cart.totalPrice
    ensures r.answer == Some(AmountMismatch) <==> r.saved.Some? && r.saved.value.totalAmount != account.cart.totalPrice
  {
    if account.cart.totalItems == 0 then CheckoutReply(None, Some(CartEmpty))
    else if gatewayOrderId.None? then CheckoutReply(None, Some(GatewayFailed))
    else match CreateOrder(catalog, account, gatewayOrderId.value)
      case Err(e) => CheckoutReply(None, Some(e))
      case Ok(o) =>
        if o.totalAmount != account.cart.totalPrice then CheckoutReply(Some(o), Some(AmountMismatch))
        else CheckoutReply(Some(o), None)
  }

  /**
    A cart whose totals are current and whose lines are all kept and priced by
    their quantities checks out without an amount mismatch.
  */
  lemma ConsistentCartChecksOut(catalog: Catalog, account: Account, gatewayOrderId: Id)
    requires Cart.TotalsConsistent(account.cart)
    requires CartOrderable(catalog, account.cart.items)
    requires CreateAllowed(catalog, account)
    ensures StartCheckout(catalog, account, Some(gatewayOrderId)).answer.None?
  {
    BuildLinesMatchCartSums(catalog, account.cart.items);
  }

  /**
    A product with regular price 0 and no tiers costs 0 in the cart but 1 in
    the order (`|| 0` against `|| 1`): checkout answers a mismatch and the
    order stays saved.
  */
  lemma ZeroRegularPriceMismatch(fields: AddressFields)
    ensures var p := Product("p", "u", 0, [], 5, "in_stock", "active", false, None, Some("s"));
      var catalog := map["p" := p];
      var cart := Cart.WithTotals([CartItem("i", "p", 0, ApplyTiers(0, [], 1), 1, true)]);
      var account := Account("u", Customer, None, cart, [Address("a", fields, "India", true)]);
      && cart.totalPrice == 0
      && StartCheckout(catalog, account, Some("o")).answer == Some(AmountMismatch)
      && StartCheckout(catalog, account, Some("o")).saved.Some?
      && StartCheckout(catalog, account, Some("o")).saved.value.totalAmount == 1
  {
    var p := Product("p", "u", 0, [], 5, "in_stock", "active", false, None, Some("s"));
    var catalog := map["p" := p];
    var item := CartItem("i", "p", 0, 0, 1, true);
    var cart := Cart.WithTotals([item]);
    var addresses := [Address("a", fields, "India", true)];
    assert Addresses.DeliveryAddress(addresses) == Some(0) by {
      FirstIndexIs(addresses, Addresses.IsRecentlyUsed(), 0);
    }
    assert [item][1..] == [];
    assert Cart.SumQuantities([item]) == item.quantity + Cart.SumQuantities([]) == 1;
    assert Cart.SumPrices([item]) == item.discounted * item.quantity + Cart.SumPrices([]) == 0;
    var account := Account("u", Customer, None, cart, addresses);
    assert Orderable(catalog, cart.items[0]);
    assert CreateAllowed(catalog, account);
    var lines := BuildLines(catalog, [item]).value;
    assert lines == [OrderLine(item, p)];
    assert lines[1..] == [];
    assert SumLineTotals(lines) == lines[0].totalPrice + SumLineTotals([]) == 1;
  }

  // ---------------------------------------------------------------- placing

  /** The order and the buyer's account after placement. */
  datatype Placement = Placement(order: Order, buyer: Account)

  /**
    _placeOrder: the order becomes `shipment-preparation` whatever its status,
    a super-customer's order is excluded, and the buyer's cart is emptied. A
    missing buyer account makes the source read a field of null.
  */
  function PlaceOrder(found: Option<Order>, buyer: Option<Account>): (r: Result<Placement, Error>)
    ensures r.Ok? <==> found.Some? && buyer.Some?
    ensures r.Ok? ==>
      && r.value.order == found.value.(status := ShipmentPreparation, included := r.value.order.included)
      && (r.value.order.included <==> found.value.included && buyer.value.role != SupperCustomer)
      && r.value.buyer == buyer.value.(cart := EmptyCart)
  {
    if found.None? then Err(OrderNotFound)
    else if buyer.None? then Err(ServerError)
    else
      var o := found.value;
      var included := if buyer.value.role == SupperCustomer then false else o.included;
      Ok(Placement(o.(included := included, status := ShipmentPreparation), buyer.value.(cart := EmptyCart)))
  }

  /**
    Placement writes its status directly, past the rank lock: even a failed or
    delivered order is set back to `shipment-preparation`, and from there no
    approval changes the status again.
  */
  lemma PlacementBypassesLock(o: Order, buyer: Account, actor: Actor, lines: seq<int>)
    ensures PlaceOrder(Some(o), Some(buyer)).Ok?
    ensures var placed := PlaceOrder(Some(o), Some(buyer)).value.order;
      && placed.status == ShipmentPreparation
      && (o.status == Delivered ==> Outranks(o.status, placed.status))
      && Approval.AcceptAll(placed, actor, lines).status == ShipmentPreparation
  {
    Approval.AcceptAllAfterPlacement(PlaceOrder(Some(o), Some(buyer)).value.order, actor, lines);
  }

  // ---------------------------------------------------------------- verifying payment

  /** What verifyPayment leaves saved, and the error it answers with (None: success). */
  datatype PaymentReply = PaymentReply(order: Option<Order>, buyer: Option<Account>, answer: Option<Error>)

  /** The unconditional `failed` write of an unpaid verification; a missing order is left missing. */
  function MarkFailed(found: Option<Order>): Option<Order> {
    match found
    case Some(o) => Some(o.(status := Failed))
    case None => None
  }

  /**
    verifyPayment: the gateway's reply (`gatewayOk`, its `orderStatus` string
    and the `customerId` it records) decides. Not paid: the order is marked
    failed. Paid for the caller: the order is placed; placement is not awaited,
    so its failure does not reach the answer. Paid for someone else: refused,
    nothing changes.
  */
  function VerifyPayment(found: Option<Order>, buyer: Option<Account>, callerId: Id, gatewayOk: bool,
                         orderStatus: string, customerId: Id): (r: PaymentReply)
    ensures r.answer.None? <==> gatewayOk && orderStatus == "PAID" && callerId == customerId
    ensures r.answer.None? ==> (r.order.Some? <==> found.Some? && buyer.Some?)
    ensures r.answer.None? && r.order.Some? ==> r.order.value.status == ShipmentPreparation && r.buyer.Some? && r.buyer.value.cart == EmptyCart
    ensures !gatewayOk || orderStatus != "PAID" ==>
      r.order == MarkFailed(found) && r.buyer.None? && (found.Some? ==> r.order.value.status == Failed)
    ensures gatewayOk && orderStatus == "PAID" && callerId != customerId ==> r == PaymentReply(None, None, Some(NotAuthorized))
  {
    if !gatewayOk then PaymentReply(MarkFailed(found), None, Some(VerificationFailed))
    else if orderStatus != "PAID" then PaymentReply(MarkFailed(found), None, Some(PaymentNotCompleted))
    else if callerId != customerId then PaymentReply(None, None, Some(NotAuthorized))
    else match PlaceOrder(found, buyer)
      case Ok(p) => PaymentReply(Some(p.order), Some(p.buyer), None)
      case Err(_) => PaymentReply(None, None, None)
  }

  /**
    Verifying an already placed order again, when the gateway no longer reports
    it paid, drops it from `shipment-preparation` to `failed`: no lock applies.
  */
  lemma ReverifyCanFailPlacedOrder(o: Order, buyer: Account, callerId: Id, orderStatus: string, customerId: Id)
    requires o.status == ShipmentPreparation && orderStatus != "PAID"
    ensures VerifyPayment(Some(o), Some(buyer), callerId, true, orderStatus, customerId).order == Some(o.(status := Failed))
    ensures Outranks(ShipmentPreparation, Failed)
  {
  }

  // ---------------------------------------------------------------- including

  /**
    orderToInclude: staff set the `include` flag of an order that is not
    delivered. `includeFlag` is None when the body has no `include`, Some(false)
    for the boolean false, and Some(true) for any other value ("false", 0 and
    null included): only the boolean false cancels the order, anything else
    returns it to `shipment-preparation`. Both writes bypass the rank lock.
  */
  function OrderToInclude(found: Option<Order>, actor: Actor, includeFlag: Option<bool>): (r: Result<Order, Error>)
    ensures r.Ok? <==> includeFlag.Some? && IsStaff(actor.role) && found.Some? && found.value.status != Delivered
    ensures r.Ok? ==> r.value == found.value.(status := r.value.status, included := r.value.included)
    ensures r.Ok? ==> (r.value.included <==> includeFlag.value)
    ensures r.Ok? ==> (r.value.status == Cancelled <==> !includeFlag.value)
    ensures r.Ok? ==> (r.value.status == ShipmentPreparation <==> includeFlag.value)
  {
    if includeFlag.None? then Err(MissingField)
    else if !IsStaff(actor.role) then Err(AccessDenied)
    else if found.None? then Err(OrderNotFound)
    else if found.value.status == Delivered then Err(OrderDelivered)
    else if includeFlag.value == false then Ok(found.value.(status := Cancelled, included := false))
    else Ok(found.value.(status := ShipmentPreparation, included := true))
  }

  /**
    Excluding a shipped order writes `cancelled`, a rank-0 status the lock
    would never write; including it lowers it from rank 5 to rank 3.
  */
  lemma IncludeBypassesLock(o: Order, actor: Actor)
    requires IsStaff(actor.role) && o.status == Shipped
    ensures OrderToInclude(Some(o), actor, Some(false)).Ok?
    ensures OrderToInclude(Some(o), actor, Some(false)).value.status == Cancelled
    ensures RankLock(o.status, Cancelled) == Shipped
    ensures OrderToInclude(Some(o), actor, Some(true)).value.status == ShipmentPreparation
    ensures Outranks(o.status, ShipmentPreparation)
  {
  }

  /** A super-customer's paid order is excluded at placement until staff include it. */
  lemma SuperCustomerOrderAwaitsInclusion(o: Order, buyer: Account, actor: Actor)
    requires buyer.role == SupperCustomer && IsStaff(actor.role)
    ensures var placed := PlaceOrder(Some(o), Some(buyer)).value.order;
      && !placed.included && placed.status == ShipmentPreparation
      && OrderToInclude(Some(placed), actor, Some(true)) == Ok(placed.(included := true))
  {
  }
}
