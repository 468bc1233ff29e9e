/**
  Fulfilment of approved line items (server/src/Controller/order.controller.js:436-560):
  a shop moves its line through shipment, and attaches a tracking link. Lines
  are addressed by product id, first match.
*/
module Fulfilment {
  import opened Wrappers
  import opened Domain
  import opened Aggregation

  /** The status strings `updateOrderStatus` accepts. */
  const UpdatableNames: set<string> :=
    {"shipment-preparation", "shipped", "delivered", "cancelled", "returned", "refunded", "failed"}

  /** Every accepted status string is a member of the fulfilment enum, so saving it validates. */
  lemma UpdatableNamesAreStatuses(s: string)
    requires s in UpdatableNames
    ensures ParseItemStatus(s).Some?
    ensures ParseItemStatus(s).value in {ItemShipmentPreparation, ItemShipped, ItemDelivered,
                                         ItemCancelled, ItemReturned, ItemRefunded, ItemFailed}
  {
  }

  /** Everything `updateOrderStatus` checks before writing, in terms of the request and the order. */
  predicate StatusUpdateAllowed(found: Option<Order>, actor: Actor, orderId: string, status: string, productId: string) {
    && orderId != "" && status != "" && productId != ""
    && status in UpdatableNames
    && IsStaff(actor.role)
    && found.Some? && found.value.status != Delivered
    && FindLine(found.value.products, productId).Some?
    && found.value.products[FindLine(found.value.products, productId).value].approval == ShopApproved
    && CanActOnLine(actor, found.value.products[FindLine(found.value.products, productId).value])
  }

  /**
    updateOrderStatus: the requested fulfilment status is written to the first
    line with the product id, and phase 2 recomputes the order status.
  */
  function UpdateOrderStatus(found: Option<Order>, actor: Actor, orderId: string, status: string,
                             productId: string): (r: Result<Order, Error>)
    ensures r.Ok? <==> StatusUpdateAllowed(found, actor, orderId, status, productId)
    ensures found.Some? && found.value.status == Delivered ==> r.Err?
    ensures status !in UpdatableNames ==> r.Err?
    ensures r.Ok? ==>
      var o := found.value;
      var i := FindLine(o.products, productId).value;
      && OnlyLineChanged(o, r.value, i)
      && ItemStatusName(r.value.products[i].status) == status
      && r.value.products[i] == o.products[i].(status := r.value.products[i].status)
      && r.value.status == Phase2Status(r.value.products, o.status)
  {
    if orderId == "" || status == "" || productId == "" then Err(MissingField)
    else if status !in UpdatableNames then Err(InvalidStatus)
    else if !IsStaff(actor.role) then Err(AccessDenied)
    else if found.None? then Err(OrderNotFound)
    else
      var o := found.value;
      if o.status == Delivered then Err(OrderDelivered)
      else match FindLine(o.products, productId)
        case None => Err(LineNotFound)
        case Some(i) =>
          if o.products[i].approval != ShopApproved then Err(LineNotApproved)
          else match ShopCheck(actor, o.products[i].shopId)
            case Some(e) => Err(e)
            case None =>
              UpdatableNamesAreStatuses(status);
              var st := ParseItemStatus(status).value;
              Ok(Phase2AfterWrite(o, i, o.products[i].(status := st)))
  }

  /** Everything `updateOrderTrackingLink` checks before writing. */
  predicate TrackingUpdateAllowed(found: Option<Order>, actor: Actor, orderId: string, link: string, productId: string) {
    && orderId != "" && link != "" && productId != ""
    && IsStaff(actor.role)
    && found.Some? && found.value.status != Delivered
    && FindLine(found.value.products, productId).Some?
    && CanActOnLine(actor, found.value.products[FindLine(found.value.products, productId).value])
  }

  /**
    updateOrderTrackingLink: sets the tracking link of the first line with the
    product id. It changes nothing else, not even the order status, and does
    not ask whether the line was approved.
  */
  function UpdateTrackingLink(found: Option<Order>, actor: Actor, orderId: string, link: string,
                              productId: string): (r: Result<Order, Error>)
    ensures r.Ok? <==> TrackingUpdateAllowed(found, actor, orderId, link, productId)
    ensures found.Some? && found.value.status == Delivered ==> r.Err?
    ensures r.Ok? ==>
      var o := found.value;
      var i := FindLine(o.products, productId).value;
      && OnlyLineChanged(o, r.value, i)
      && r.value.status == o.status
      && r.value.products[i] == o.products[i].(trackingLink := Some(link))
  {
    if orderId == "" || link == "" || productId == "" then Err(MissingField)
    else if !IsStaff(actor.role) then Err(AccessDenied)
    else if found.None? then Err(OrderNotFound)
    else
      var o := found.value;
      if o.status == Delivered then Err(OrderDelivered)
      else match FindLine(o.products, productId)
        case None => Err(LineNotFound)
        case Some(i) =>
          match ShopCheck(actor, o.products[i].shopId)
            case Some(e) => Err(e)
            case None => Ok(o.(products := o.products[i := o.products[i].(trackingLink := Some(link))]))
  }

  /**
    Delivering the last undelivered line of an order whose lines are all
    approved makes the order `delivered`, after which neither handler accepts
    another request for it.
  */
  lemma DeliveringLastLineLocksOrder(o: Order, actor: Actor, orderId: string, productId: string,
                                     status2: string, link: string)
    requires |o.products| > 0
    requires forall j :: 0 <= j < |o.products| ==> o.products[j].approval == ShopApproved
    requires UpdateOrderStatus(Some(o), actor, orderId, "delivered", productId).Ok?
    requires var i := FindLine(o.products, productId).value;
      forall j :: 0 <= j < |o.products| && j != i ==> o.products[j].status == ItemDelivered
    ensures var o' := UpdateOrderStatus(Some(o), actor, orderId, "delivered", productId).value;
      && o'.status == Delivered
      && UpdateOrderStatus(Some(o'), actor, orderId, status2, productId).Err?
      && UpdateTrackingLink(Some(o'), actor, orderId, link, productId).Err?
  {
    var o' := UpdateOrderStatus(Some(o), actor, orderId, "delivered", productId).value;
    Phase2AllDelivered(o'.products, o.status);
  }
}
