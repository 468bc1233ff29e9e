/**
  Shop approval of line items (server/src/Controller/order.controller.js:136-207).
  A line is addressed by its subdocument id, modelled as its position in the
  order's line list: lines are never removed from an order.
*/
module Approval {
  import opened Wrappers
  import opened Domain
  import opened Aggregation

  /** The line reference of the request names a line of the order. */
  predicate ValidLine(o: Order, line: int) {
    0 <= line < |o.products|
  }

  /**
    acceptShopOrderRequest: staff only; the order and the line must exist. The
    line becomes approved and records the approver, then phase 1 runs. There is
    no check that the line is still pending and none that the caller owns its shop.
  */
  function AcceptLine(found: Option<Order>, actor: Actor, line: int): (r: Result<Order, Error>)
    ensures !IsStaff(actor.role) ==> r == Err(AccessDenied)
    ensures r.Ok? <==> IsStaff(actor.role) && found.Some? && ValidLine(found.value, line)
    ensures r.Ok? ==> OnlyLineChanged(found.value, r.value, line)
    ensures r.Ok? ==> r.value.products[line]
                      == found.value.products[line].(approval := ShopApproved, approvedBy := Some(actor.id))
    ensures r.Ok? ==> r.value.status == found.value.status || Outranks(r.value.status, found.value.status)
    ensures r.Ok? ==> r.value.status == RankLock(found.value.status, Phase1Candidate(r.value.products, found.value.status))
  {
    if !IsStaff(actor.role) then Err(AccessDenied)
    else if found.None? then Err(OrderNotFound)
    else
      var o := found.value;
      if !ValidLine(o, line) then Err(LineNotFound)
      else
        var l := o.products[line].(approval := ShopApproved, approvedBy := Some(actor.id));
        Ok(Phase1(o.(products := o.products[line := l])))
  }

  /** Accepting an already rejected line succeeds and flips it: approval is not final. */
  lemma AcceptOverridesRejection(o: Order, actor: Actor, line: nat)
    requires IsStaff(actor.role) && line < |o.products| && o.products[line].approval == ShopRejected
    ensures AcceptLine(Some(o), actor, line).Ok?
    ensures AcceptLine(Some(o), actor, line).value.products[line].approval == ShopApproved
  {
  }

  /** Any shop-user may accept a line of another shop. */
  lemma AcceptIgnoresShop(o: Order, actor: Actor, line: nat)
    requires actor.role == ShopUser && line < |o.products| && actor.shopId != Some(o.products[line].shopId)
    ensures AcceptLine(Some(o), actor, line).Ok?
    ensures !CanActOnLine(actor, o.products[line])
  {
  }

  /** The value the reject handler writes into the line's `status` (a path the line schema lacks). */
  function RejectStatusWrite(p: PaymentType): Option<string> {
    if PaymentTypeName(p) == "cash-on-delivery" then Some("rejected")
    else if PaymentTypeName(p) == "online-payment" then Some("refund-in-progress")
    else None
  }

  /** Neither payment-type branch of the reject handler can be taken: the strings are not in the enum. */
  lemma RejectPaymentBranchesDead(p: PaymentType)
    ensures RejectStatusWrite(p) == None
  {
  }

  /**
    rejectShopOrderRequest as written: after its guards it calls the phase-2
    reducer without an argument, which throws before anything is saved.
  */
  function RejectLineAsWritten(found: Option<Order>, actor: Actor, line: int, reason: Option<string>): (r: Result<Order, Error>)
    ensures r.Err?
    ensures IsStaff(actor.role) && !ReasonMissing(reason) && found.Some? && ValidLine(found.value, line)
            ==> r == Err(ServerError)
  {
    if !IsStaff(actor.role) then Err(AccessDenied)
    else if ReasonMissing(reason) then Err(ReasonRequired)
    else if found.None? then Err(OrderNotFound)
    else if !ValidLine(found.value, line) then Err(LineNotFound)
    else Err(ServerError)
  }

  /**
    rejectShopOrderRequest with the phase-2 call given the order: the line
    becomes rejected with the reason as its description and records the
    approver; phase 2 then phase 1 run.
  */
  function RejectLine(found: Option<Order>, actor: Actor, line: int, reason: Option<string>): (r: Result<Order, Error>)
    ensures !IsStaff(actor.role) ==> r == Err(AccessDenied)
    ensures IsStaff(actor.role) && ReasonMissing(reason) ==> r == Err(ReasonRequired)
    ensures r.Ok? <==> IsStaff(actor.role) && !ReasonMissing(reason) && found.Some? && ValidLine(found.value, line)
    ensures r.Ok? ==> OnlyLineChanged(found.value, r.value, line)
    ensures r.Ok? ==> r.value.products[line]
                      == found.value.products[line].(approval := ShopRejected, description := reason,
                                                     approvedBy := Some(actor.id))
    ensures r.Ok? ==> var s2 := Phase2Status(r.value.products, found.value.status);
      r.value.status == RankLock(s2, Phase1Candidate(r.value.products, s2))
  {
    if !IsStaff(actor.role) then Err(AccessDenied)
    else if ReasonMissing(reason) then Err(ReasonRequired)
    else if found.None? then Err(OrderNotFound)
    else
      var o := found.value;
      if !ValidLine(o, line) then Err(LineNotFound)
      else
        var l := o.products[line].(approval := ShopRejected, description := reason, approvedBy := Some(actor.id));
        Ok(Phase1(Phase2AfterWrite(o, line, l)))
  }

  /** Where the handler as written fails with a server error, the corrected one persists the rejection. */
  lemma RejectCorrectionPersists(found: Option<Order>, actor: Actor, line: int, reason: Option<string>)
    ensures RejectLineAsWritten(found, actor, line, reason) == Err(ServerError)
            <==> RejectLine(found, actor, line, reason).Ok?
    ensures RejectLine(found, actor, line, reason).Err?
            ==> RejectLine(found, actor, line, reason) == RejectLineAsWritten(found, actor, line, reason)
  {
  }

  /**
    Because the corrected reject runs phase 2, which has no lock and counts
    rejected lines' statuses, rejecting a delivered line next to a shipped one
    drops a `partial-delivered` order to `delivered`, which then blocks every
    fulfilment update of the still-shipped line.
  */
  lemma RejectCanLowerRankToDelivered(o: Order, actor: Actor, a: LineItem)
    requires IsStaff(actor.role) && a.approval == ShopApproved
    requires o.status == PartialDelivered
    requires o.products == [a.(status := ItemShipped), a.(status := ItemDelivered)]
    ensures RejectLine(Some(o), actor, 1, Some("x")).Ok?
    ensures RejectLine(Some(o), actor, 1, Some("x")).value.status == Delivered
  {
    assert Outranks(PartialDelivered, Delivered);
    assert !IsTrimmed("x"[0]);
    var l := o.products[1].(approval := ShopRejected, description := Some("x"), approvedBy := Some(actor.id));
    var ps := o.products[1 := l];
    assert ps == [a.(status := ItemShipped), l];
    CountTwo(a.(status := ItemShipped), l, HasApproval(ShopApproved));
    CountTwo(a.(status := ItemShipped), l, HasApproval(ShopRejected));
    CountTwo(a.(status := ItemShipped), l, HasStatus(ItemReturned));
    CountTwo(a.(status := ItemShipped), l, HasStatus(ItemCancelled));
    CountTwo(a.(status := ItemShipped), l, HasStatus(ItemDelivered));
  }

  // ------------------------------------------------ sequences of approvals

  /** Applying accept decisions one after another; a refused decision leaves the order as it was. */
  function AcceptAll(o: Order, actor: Actor, lines: seq<int>): Order
    decreases |lines|
  {
    if |lines| == 0 then o
    else
      var next := match AcceptLine(Some(o), actor, lines[0])
        case Ok(o') => o'
        case Err(_) => o;
      AcceptAll(next, actor, lines[1..])
  }

  /** The status is unchanged or strictly outranks where it started (ranks are never lowered). */
  predicate NotLowered(before: OrderStatus, after: OrderStatus) {
    after == before || Outranks(after, before)
  }

  /**
    Across any sequence of accept decisions the order's rank never decreases,
    the header and line count are preserved, and every named line ends approved:
    no decision is lost.
  */
  lemma {:induction false} AcceptAllMonotone(o: Order, actor: Actor, lines: seq<int>)
    requires IsStaff(actor.role)
    ensures var r := AcceptAll(o, actor, lines);
      && NotLowered(o.status, r.status)
      && |r.products| == |o.products|
      && r == o.(products := r.products, status := r.status)
      && (forall k :: 0 <= k < |lines| && 0 <= lines[k] < |o.products|
            ==> r.products[lines[k]].approval == ShopApproved)
    decreases |lines|
  {
    if |lines| > 0 {
      var next := match AcceptLine(Some(o), actor, lines[0])
        case Ok(o') => o'
        case Err(_) => o;
      AcceptAllMonotone(next, actor, lines[1..]);
      var r := AcceptAll(next, actor, lines[1..]);
      assert AcceptAll(o, actor, lines) == r;
      forall k | 0 <= k < |lines| && 0 <= lines[k] < |o.products|
        ensures r.products[lines[k]].approval == ShopApproved
      {
        if k > 0 {
          assert lines[1..][k - 1] == lines[k];
        } else {
          AcceptStaysApproved(next, actor, lines[1..], lines[0]);
        }
      }
    }
  }

  /** A line that is approved stays approved through further accept decisions. */
  lemma {:induction false} AcceptStaysApproved(o: Order, actor: Actor, lines: seq<int>, line: nat)
    requires IsStaff(actor.role) && line < |o.products| && o.products[line].approval == ShopApproved
    ensures line < |AcceptAll(o, actor, lines).products|
    ensures AcceptAll(o, actor, lines).products[line].approval == ShopApproved
    decreases |lines|
  {
    if |lines| > 0 {
      var next := match AcceptLine(Some(o), actor, lines[0])
        case Ok(o') => o'
        case Err(_) => o;
      AcceptStaysApproved(next, actor, lines[1..], line);
    }
  }

  /**
    Once an order has been placed (`shipment-preparation`, rank 3), no sequence
    of approvals ever changes its status: phase 1 only proposes ranks 1 and 2.
  */
  lemma {:induction false} AcceptAllAfterPlacement(o: Order, actor: Actor, lines: seq<int>)
    requires Rank(o.status).None? || Rank(o.status).value >= 2
    ensures AcceptAll(o, actor, lines).status == o.status
    decreases |lines|
  {
    if |lines| > 0 {
      var next := match AcceptLine(Some(o), actor, lines[0])
        case Ok(o') => o'
        case Err(_) => o;
      if AcceptLine(Some(o), actor, lines[0]).Ok? {
        var l := o.products[lines[0]].(approval := ShopApproved, approvedBy := Some(actor.id));
        Phase1InertFromRankTwo(o.(products := o.products[lines[0] := l]));
      }
      AcceptAllAfterPlacement(next, actor, lines[1..]);
    }
  }

  /**
    Two approvals of a two-line order from a rank-0 status end at
    `partial-pending`, while one phase-1 pass over the final lines proposes
    `pending`: the lock keeps the first intermediate status.
  */
  lemma TwoApprovalsEndPartialPending(o: Order, actor: Actor, a: LineItem, b: LineItem)
    requires IsStaff(actor.role) && o.status == Cancelled
    requires a.approval == ShopPending && b.approval == ShopPending && o.products == [a, b]
    ensures AcceptAll(o, actor, [0, 1]).status == PartialPending
    ensures Phase1Candidate(AcceptAll(o, actor, [0, 1]).products, Cancelled) == Pending
  {
    var a' := a.(approval := ShopApproved, approvedBy := Some(actor.id));
    var b' := b.(approval := ShopApproved, approvedBy := Some(actor.id));
    assert o.products[0 := a'] == [a', b];
    CountTwo(a', b, HasApproval(ShopApproved));
    CountTwo(a', b, HasApproval(ShopRejected));
    var o1 := AcceptLine(Some(o), actor, 0).value;
    assert o1.status == PartialPending;
    assert o1.products[1 := b'] == [a', b'];
    CountTwo(a', b', HasApproval(ShopApproved));
    CountTwo(a', b', HasApproval(ShopRejected));
    var o2 := AcceptLine(Some(o1), actor, 1).value;
    assert o2.status == PartialPending;
    assert AcceptAll(o, actor, [0, 1]) == AcceptAll(o1, actor, [1]);
    assert [0, 1][1..] == [1];
    assert [1][1..] == [];
    assert AcceptAll(o1, actor, [1]) == o2;
  }
}
