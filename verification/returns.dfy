/**
  Returns and refunds of line items (server/src/Controller/order.controller.js:633-879)
  and the route that serves "return accept" (server/src/Routes/order.routes.js:22-24).
  Every handler addresses the first line with the requested product id and
  reruns phase 2 after writing.
*/
module Returns {
  import opened Wrappers
  import opened Domain
  import opened Aggregation
  import Approval

  /** The `images` field of a return request: absent (or falsy), an array of names, or anything else. */
  datatype ImagesArg = NoImages | ImageList(names: seq<string>) | NotAList

  /** The image names a request stores; their move to the refunds folder is file I/O. */
  function StoredImages(images: ImagesArg): seq<string> {
    match images
    case ImageList(ns) => ns
    case _ => []
  }

  /** The line after a return request: request date set, decision dates cleared, texts defaulted to "". */
  function RequestedLine(l: LineItem, images: ImagesArg, reason: Option<string>, description: Option<string>,
                         now: int): (r: LineItem)
    ensures r == l.(status := ItemReturnRequested, ret := r.ret)
    ensures r.ret.requestDate == Some(now) && r.ret.approvedDate.None? && r.ret.rejectedDate.None?
    ensures r.ret.reason == Some(if reason.Some? then reason.value else "")
    ensures r.ret.description == Some(if description.Some? then description.value else "")
    ensures r.ret.images == StoredImages(images) && r.ret.rejectionReason == l.ret.rejectionReason
  {
    l.(status := ItemReturnRequested,
       ret := l.ret.(images := StoredImages(images), requestDate := Some(now), rejectedDate := None,
                     approvedDate := None, reason := Some(reason.GetOr("")),
                     description := Some(description.GetOr(""))))
  }

  /** The checks both versions of the return request share, up to finding the line. */
  predicate ReturnLineFound(found: Option<Order>, actor: Actor, productId: Id, quantity: Option<int>) {
    && quantity.Some? && quantity.value > 0
    && found.Some? && found.value.buyer.id == actor.id
    && FindLine(found.value.products, productId).Some?
  }

  /** The checks after finding the line that both versions make. */
  predicate ReturnLineAcceptable(l: LineItem, quantity: int, images: ImagesArg) {
    quantity <= l.quantity && !images.NotAList? && l.status != ItemReturned
  }

  /** What refundOrderProduct saves, and the error it answers with (None: success). */
  datatype ReturnReply = ReturnReply(saved: Option<Order>, answer: Option<Error>)

  /**
    refundOrderProduct as written: for a line already in return-requested it
    answers "Return in progress" but, lacking a `return`, goes on; when the later
    checks pass it saves the overwritten request; when one fails, the first
    answer is the one the caller sees and nothing is saved.
  */
  function RequestReturnAsWritten(found: Option<Order>, actor: Actor, productId: Id, quantity: Option<int>,
                                  images: ImagesArg, reason: Option<string>, description: Option<string>,
                                  now: int): (r: ReturnReply)
    ensures r.saved.Some? <==> (ReturnLineFound(found, actor, productId, quantity)
      && ReturnLineAcceptable(found.value.products[FindLine(found.value.products, productId).value],
                              quantity.value, images))
    ensures ReturnLineFound(found, actor, productId, quantity)
      && found.value.products[FindLine(found.value.products, productId).value].status == ItemReturnRequested
      ==> r.answer == Some(ReturnInProgress)
  {
    if quantity.None? then ReturnReply(None, Some(MissingField))
    else if quantity.value <= 0 then ReturnReply(None, Some(InvalidQuantity))
    else if found.None? then ReturnReply(None, Some(OrderNotFound))
    else
      var o := found.value;
      if o.buyer.id != actor.id then ReturnReply(None, Some(NotAuthorized))
      else match FindLine(o.products, productId)
        case None => ReturnReply(None, Some(LineNotFound))
        case Some(i) =>
          var l := o.products[i];
          var first := if l.status == ItemReturnRequested then Some(ReturnInProgress) else None;
          if quantity.value > l.quantity then ReturnReply(None, if first.Some? then first else Some(QuantityExceedsPurchase))
          else if images.NotAList? then ReturnReply(None, if first.Some? then first else Some(ImagesNotList))
          else if l.status == ItemReturned then ReturnReply(None, if first.Some? then first else Some(AlreadyReturned))
          else
            var o' := Phase2AfterWrite(o, i, RequestedLine(l, images, reason, description, now));
            ReturnReply(Some(o'), first)
  }

  /** Everything the corrected return request checks. */
  predicate ReturnAllowed(found: Option<Order>, actor: Actor, productId: Id, quantity: Option<int>, images: ImagesArg) {
    && ReturnLineFound(found, actor, productId, quantity)
    && var l := found.value.products[FindLine(found.value.products, productId).value];
       l.status != ItemReturnRequested && ReturnLineAcceptable(l, quantity.value, images)
  }

  /**
    refundOrderProduct with the missing `return`: a second request while one
    is in progress is refused. A request needs a positive quantity no larger
    than the purchased one, the buyer as caller, an images array if images are
    given, and a line not already returned.
  */
  function RequestReturn(found: Option<Order>, actor: Actor, productId: Id, quantity: Option<int>,
                         images: ImagesArg, reason: Option<string>, description: Option<string>,
                         now: int): (r: Result<Order, Error>)
    ensures r.Ok? <==> ReturnAllowed(found, actor, productId, quantity, images)
    ensures quantity.Some? && quantity.value <= 0 ==> r == Err(InvalidQuantity)
    ensures r.Ok? ==>
      var o := found.value;
      var i := FindLine(o.products, productId).value;
      && OnlyLineChanged(o, r.value, i)
      && r.value.products[i].status == ItemReturnRequested
      && r.value.products[i].ret.requestDate == Some(now)
      && r.value.products[i].ret.approvedDate.None? && r.value.products[i].ret.rejectedDate.None?
      && r.value.products[i].ret.reason == Some(if reason.Some? then reason.value else "")
      && r.value.products[i].ret.description == Some(if description.Some? then description.value else "")
      && r.value.products[i].ret.images == StoredImages(images)
      && r.value.products[i].ret.rejectionReason == o.products[i].ret.rejectionReason
      && r.value.products[i] == o.products[i].(status := ItemReturnRequested, ret := r.value.products[i].ret)
      && r.value.status == Phase2Status(r.value.products, o.status)
  {
    if quantity.None? then Err(MissingField)
    else if quantity.value <= 0 then Err(InvalidQuantity)
    else if found.None? then Err(OrderNotFound)
    else
      var o := found.value;
      if o.buyer.id != actor.id then Err(NotAuthorized)
      else match FindLine(o.products, productId)
        case None => Err(LineNotFound)
        case Some(i) =>
          var l := o.products[i];
          if l.status == ItemReturnRequested then Err(ReturnInProgress)
          else if quantity.value > l.quantity then Err(QuantityExceedsPurchase)
          else if images.NotAList? then Err(ImagesNotList)
          else if l.status == ItemReturned then Err(AlreadyReturned)
          else
            var l' := RequestedLine(l, images, reason, description, now);
            Ok(Phase2AfterWrite(o, i, l'))
  }

  /**
    The two versions agree except on a line already in return-requested: there
    the source saves the repeated request (resetting its date and texts) while
    the corrected handler refuses it and saves nothing.
  */
  lemma DuplicateReturnRequest(found: Option<Order>, actor: Actor, productId: Id, quantity: Option<int>,
                               images: ImagesArg, reason: Option<string>, description: Option<string>, now: int)
    ensures var w := RequestReturnAsWritten(found, actor, productId, quantity, images, reason, description, now);
      var c := RequestReturn(found, actor, productId, quantity, images, reason, description, now);
      && (c.Ok? ==> w == ReturnReply(Some(c.value), None))
      && (ReturnAllowedButRepeated(found, actor, productId, quantity, images) ==>
            c == Err(ReturnInProgress) && w.saved.Some? && w.answer == Some(ReturnInProgress))
      && (w.saved.Some? && w.answer.None? ==> c == Ok(w.saved.value))
  {
  }

  /** A repeated request that passes every other check. */
  predicate ReturnAllowedButRepeated(found: Option<Order>, actor: Actor, productId: Id, quantity: Option<int>,
                                     images: ImagesArg) {
    && ReturnLineFound(found, actor, productId, quantity)
    && var l := found.value.products[FindLine(found.value.products, productId).value];
       l.status == ItemReturnRequested && ReturnLineAcceptable(l, quantity.value, images)
  }

  /** A request above the purchased quantity is refused and changes nothing, in both versions. */
  lemma ExcessiveReturnRefused(o: Order, actor: Actor, productId: Id, q: int, images: ImagesArg,
                               reason: Option<string>, description: Option<string>, now: int)
    requires FindLine(o.products, productId).Some?
    requires q > o.products[FindLine(o.products, productId).value].quantity && q > 0
    ensures RequestReturn(Some(o), actor, productId, Some(q), images, reason, description, now).Err?
    ensures RequestReturnAsWritten(Some(o), actor, productId, Some(q), images, reason, description, now).saved.None?
  {
  }

  /** The refund quantity is checked but not recorded: any two valid quantities give the same result. */
  lemma ReturnQuantityNotRecorded(o: Order, actor: Actor, productId: Id, q1: int, q2: int, images: ImagesArg,
                                  reason: Option<string>, description: Option<string>, now: int)
    requires FindLine(o.products, productId).Some?
    requires 0 < q1 <= o.products[FindLine(o.products, productId).value].quantity
    requires 0 < q2 <= o.products[FindLine(o.products, productId).value].quantity
    ensures RequestReturn(Some(o), actor, productId, Some(q1), images, reason, description, now)
         == RequestReturn(Some(o), actor, productId, Some(q2), images, reason, description, now)
  {
  }

  /** A return can be requested for a line that was never delivered, even one still pending approval. */
  lemma ReturnWithoutDelivery(o: Order, actor: Actor, productId: Id, now: int)
    requires o.buyer.id == actor.id
    requires FindLine(o.products, productId).Some?
    requires var l := o.products[FindLine(o.products, productId).value]; l.status == ItemPending && l.quantity >= 1
    ensures RequestReturn(Some(o), actor, productId, Some(1), NoImages, None, None, now).Ok?
  {
  }

  // ------------------------------------------------ decisions on a return

  /** The checks the three return decisions share: staff, the line found, the caller's shop, return-requested. */
  predicate ReturnDecisionAllowed(found: Option<Order>, actor: Actor, productId: Id) {
    && IsStaff(actor.role) && productId != ""
    && found.Some? && FindLine(found.value.products, productId).Some?
    && CanActOnLine(actor, found.value.products[FindLine(found.value.products, productId).value])
    && found.value.products[FindLine(found.value.products, productId).value].status == ItemReturnRequested
  }

  /**
    refundCompleteProduct: an administrator or the line's shop marks a
    return-requested line refunded; no prior approval is needed.
  */
  function CompleteRefund(found: Option<Order>, actor: Actor, productId: Id): (r: Result<Order, Error>)
    ensures r.Ok? <==> ReturnDecisionAllowed(found, actor, productId)
    ensures r.Ok? ==>
      var o := found.value;
      var i := FindLine(o.products, productId).value;
      && OnlyLineChanged(o, r.value, i)
      && r.value.products[i] == o.products[i].(status := ItemRefunded)
      && r.value.status == Phase2Status(r.value.products, o.status)
  {
    if productId == "" then Err(MissingField)
    else if !IsStaff(actor.role) then Err(AccessDenied)
    else if found.None? then Err(OrderNotFound)
    else
      var o := found.value;
      match FindLine(o.products, productId)
      case None => Err(LineNotFound)
      case Some(i) =>
        match ShopCheck(actor, o.products[i].shopId)
        case Some(e) => Err(e)
        case None =>
          if o.products[i].status != ItemReturnRequested then Err(NotReturnRequested)
          else Ok(Phase2AfterWrite(o, i, o.products[i].(status := ItemRefunded)))
  }

  /**
    approveRefundRequest: a return-requested line becomes refund-approved with
    the approval dated now and any rejection date cleared.
  */
  function ApproveRefund(found: Option<Order>, actor: Actor, productId: Id, now: int): (r: Result<Order, Error>)
    ensures r.Ok? <==> ReturnDecisionAllowed(found, actor, productId)
    ensures r.Ok? ==>
      var o := found.value;
      var i := FindLine(o.products, productId).value;
      && OnlyLineChanged(o, r.value, i)
      && r.value.products[i].status == ItemRefundApproved
      && r.value.products[i].ret == o.products[i].ret.(approvedDate := Some(now), rejectedDate := None)
      && r.value.products[i] == o.products[i].(status := ItemRefundApproved, ret := r.value.products[i].ret)
      && r.value.status == Phase2Status(r.value.products, o.status)
  {
    if !IsStaff(actor.role) then Err(AccessDenied)
    else if productId == "" then Err(MissingField)
    else if found.None? then Err(OrderNotFound)
    else
      var o := found.value;
      match FindLine(o.products, productId)
      case None => Err(LineNotFound)
      case Some(i) =>
        match ShopCheck(actor, o.products[i].shopId)
        case Some(e) => Err(e)
        case None =>
          var l := o.products[i];
          if l.status != ItemReturnRequested then Err(NotReturnRequested)
          else
            var l' := l.(status := ItemRefundApproved,
                         ret := l.ret.(approvedDate := Some(now), rejectedDate := None));
            Ok(Phase2AfterWrite(o, i, l'))
  }

  /**
    rejectRefundRequest: needs a non-blank reason; a return-requested line
    becomes refund-rejected with the reason, the rejection dated now and any
    approval date cleared.
  */
  function RejectRefund(found: Option<Order>, actor: Actor, productId: Id, reason: Option<string>,
                        now: int): (r: Result<Order, Error>)
    ensures r.Ok? <==> ReturnDecisionAllowed(found, actor, productId) && !ReasonMissing(reason)
    ensures IsStaff(actor.role) && productId != "" && ReasonMissing(reason) ==> r == Err(ReasonRequired)
    ensures r.Ok? ==>
      var o := found.value;
      var i := FindLine(o.products, productId).value;
      && OnlyLineChanged(o, r.value, i)
      && r.value.products[i].status == ItemRefundRejected
      && r.value.products[i].ret
         == o.products[i].ret.(rejectionReason := reason, approvedDate := None, rejectedDate := Some(now))
      && r.value.products[i] == o.products[i].(status := ItemRefundRejected, ret := r.value.products[i].ret)
      && r.value.status == Phase2Status(r.value.products, o.status)
  {
    if !IsStaff(actor.role) then Err(AccessDenied)
    else if productId == "" then Err(MissingField)
    else if ReasonMissing(reason) then Err(ReasonRequired)
    else if found.None? then Err(OrderNotFound)
    else
      var o := found.value;
      match FindLine(o.products, productId)
      case None => Err(LineNotFound)
      case Some(i) =>
        match ShopCheck(actor, o.products[i].shopId)
        case Some(e) => Err(e)
        case None =>
          var l := o.products[i];
          if l.status != ItemReturnRequested then Err(NotReturnRequested)
          else
            var l' := l.(status := ItemRefundRejected,
                         ret := l.ret.(rejectionReason := reason, approvedDate := None, rejectedDate := Some(now)));
            Ok(Phase2AfterWrite(o, i, l'))
  }

  /** A rejection without a reason fails and leaves the line in return-requested. */
  lemma RejectRefundNeedsReason(o: Order, actor: Actor, productId: Id, reason: Option<string>, now: int)
    requires IsStaff(actor.role) && productId != "" && ReasonMissing(reason)
    ensures RejectRefund(Some(o), actor, productId, reason, now) == Err(ReasonRequired)
  {
  }

  /**
    Approval and completion exclude each other: once approved, a refund can no
    longer be completed, since completion also requires return-requested.
  */
  lemma ApprovedRefundCannotComplete(o: Order, actor: Actor, productId: Id, now: int)
    requires ApproveRefund(Some(o), actor, productId, now).Ok?
    ensures CompleteRefund(Some(ApproveRefund(Some(o), actor, productId, now).value), actor, productId)
            == Err(NotReturnRequested)
  {
    var o' := ApproveRefund(Some(o), actor, productId, now).value;
    var i := FindLine(o.products, productId).value;
    assert FindLine(o'.products, productId) == Some(i) by {
      assert forall j :: 0 <= j < |o'.products| ==> o'.products[j].productId == o.products[j].productId;
    }
  }

  /** No phase-2 result is `refunded` or `partial-refunded`: completing refunds never shows at order level. */
  lemma CompleteRefundNeverRefundsOrder(o: Order, actor: Actor, productId: Id)
    requires o.status != Refunded && o.status != PartialRefunded
    requires CompleteRefund(Some(o), actor, productId).Ok?
    ensures CompleteRefund(Some(o), actor, productId).value.status !in {Refunded, PartialRefunded}
  {
    var r := CompleteRefund(Some(o), actor, productId).value;
    Phase2Range(r.products, o.status);
  }

  // ------------------------------------------------ routing of "return accept"

  /** The "return accept" route as wired: it is served by the shop-approval handler. */
  function ReturnAcceptRoute(found: Option<Order>, actor: Actor, line: int): (r: Result<Order, Error>)
    ensures r.Ok? <==> IsStaff(actor.role) && found.Some? && Approval.ValidLine(found.value, line)
    ensures r.Ok? ==> (Approval.ValidLine(r.value, line)
                       && r.value.products[line].status == found.value.products[line].status
                       && r.value.products[line].approval == ShopApproved)
  {
    Approval.AcceptLine(found, actor, line)
  }

  /**
    Through that route, accepting a requested return of an approved line
    succeeds yet leaves it in return-requested: the return is never approved.
  */
  lemma ReturnAcceptRouteLeavesRequest(o: Order, actor: Actor, line: nat)
    requires IsStaff(actor.role) && line < |o.products|
    requires o.products[line].status == ItemReturnRequested && o.products[line].approval == ShopApproved
    ensures ReturnAcceptRoute(Some(o), actor, line).Ok?
    ensures ReturnAcceptRoute(Some(o), actor, line).value.products[line].status == ItemReturnRequested
  {
  }

  /** The route served by the refund-approval handler, as its name says. */
  function ReturnAcceptRouteCorrected(found: Option<Order>, actor: Actor, productId: Id, now: int): (r: Result<Order, Error>)
    ensures r.Ok? <==> ReturnDecisionAllowed(found, actor, productId)
    ensures r.Ok? ==> var i := FindLine(found.value.products, productId).value;
      i < |r.value.products| && r.value.products[i].status == ItemRefundApproved
  {
    ApproveRefund(found, actor, productId, now)
  }
}
