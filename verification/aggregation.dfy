/**
  Order-status aggregation (server/src/Controller/order.controller.js:5-27,
  101-133, 393-435): the fixed rank table, the phase-1 reducer over approval
  counts guarded by the rank lock, and the phase-2 reducer over fulfilment
  counts, which has precedence rules but no lock.
*/
module Aggregation {
  import opened Wrappers
  import opened Domain

  // ---------------------------------------------------------------- counting

  /** How many elements of `s` satisfy `p`. */
  function Count<T>(s: seq<T>, p: T -> bool): (n: nat)
    ensures n <= |s|
  {
    if |s| == 0 then 0 else (if p(s[0]) then 1 else 0) + Count(s[1..], p)
  }

  /** Every element satisfies `p` exactly when all of them are counted. */
  lemma {:induction false} CountAll<T>(s: seq<T>, p: T -> bool)
    ensures Count(s, p) == |s| <==> forall i :: 0 <= i < |s| ==> p(s[i])
  {
    if |s| > 0 {
      CountAll(s[1..], p);
      assert forall i :: 1 <= i < |s| ==> s[i] == s[1..][i - 1];
    }
  }

  /** No element satisfies `p` exactly when none is counted. */
  lemma {:induction false} CountNone<T>(s: seq<T>, p: T -> bool)
    ensures Count(s, p) == 0 <==> forall i :: 0 <= i < |s| ==> !p(s[i])
  {
    if |s| > 0 {
      CountNone(s[1..], p);
      assert forall i :: 1 <= i < |s| ==> s[i] == s[1..][i - 1];
    }
  }

  /** Counting is pointwise: predicates agreeing on every element count alike. */
  lemma {:induction false} CountAgree<T>(s: seq<T>, p: T -> bool, q: T -> bool)
    requires forall i :: 0 <= i < |s| ==> p(s[i]) == q(s[i])
    ensures Count(s, p) == Count(s, q)
  {
    if |s| > 0 {
      assert forall i :: 1 <= i < |s| ==> s[i] == s[1..][i - 1];
      CountAgree(s[1..], p, q);
    }
  }

  /** Replacing one element changes the count only by that element's contribution. */
  lemma {:induction false} CountUpdate<T>(s: seq<T>, i: nat, x: T, p: T -> bool)
    requires i < |s|
    ensures Count(s[i := x], p) == Count(s, p) - (if p(s[i]) then 1 else 0) + (if p(x) then 1 else 0)
  {
    if i == 0 {
      assert s[i := x][1..] == s[1..];
    } else {
      assert s[i := x][1..] == s[1..][i - 1 := x];
      CountUpdate(s[1..], i - 1, x, p);
    }
  }

  /** Counting a two-element sequence. */
  lemma CountTwo<T>(a: T, b: T, p: T -> bool)
    ensures Count([a, b], p) == (if p(a) then 1 else 0) + (if p(b) then 1 else 0)
  {
    assert [a, b][1..] == [b];
    assert [b][1..] == [];
  }

  /** The line-item predicates the reducers count. */
  function HasApproval(a: Approval): LineItem -> bool {
    (l: LineItem) => l.approval == a
  }

  function HasStatus(st: ItemStatus): LineItem -> bool {
    (l: LineItem) => l.status == st
  }

  /** A line whose shop has approved or rejected it. */
  function IsDecided(): LineItem -> bool {
    (l: LineItem) => l.approval != ShopPending
  }

  /** The approval counts of a line list add up to its length. */
  lemma {:induction false} ApprovalCountsPartition(ps: seq<LineItem>)
    ensures Count(ps, HasApproval(ShopApproved)) + Count(ps, HasApproval(ShopRejected))
            + Count(ps, HasApproval(ShopPending)) == |ps|
    ensures Count(ps, HasApproval(ShopApproved)) + Count(ps, HasApproval(ShopRejected))
            == Count(ps, IsDecided())
  {
    if |ps| > 0 {
      ApprovalCountsPartition(ps[1..]);
    }
  }

  // ---------------------------------------------------------------- rank lock

  /** The rank table. `paymentInitiated` and `partial-cancelled` have no entry. */
  function Rank(s: OrderStatus): Option<int> {
    match s
    case Pending => Some(1)
    case PartialPending => Some(2)
    case ShipmentPreparation => Some(3)
    case PartialShipmentPreparation => Some(4)
    case Shipped => Some(5)
    case PartialShipped => Some(6)
    case Delivered => Some(7)
    case PartialDelivered => Some(8)
    case Returned => Some(9)
    case PartialReturned => Some(10)
    case Refunded => Some(11)
    case PartialRefunded => Some(12)
    case Cancelled => Some(0)
    case Failed => Some(0)
    case Rejected => Some(0)
    case PaymentInitiated => None
    case PartialCancelled => None
  }

  /** Exactly two statuses of the order enum are missing from the rank table. */
  lemma UnrankedStatuses(s: OrderStatus)
    ensures Rank(s).None? <==> (s == PaymentInitiated || s == PartialCancelled)
  {
  }

  /** `next` outranks `current`: both have ranks and the comparison `>` holds. */
  predicate Outranks(next: OrderStatus, current: OrderStatus) {
    Rank(next).Some? && Rank(current).Some? && Rank(next).value > Rank(current).value
  }

  /** The lock: a comparison with a missing rank is false in the source, so nothing is written. */
  function RankLock(current: OrderStatus, next: OrderStatus): (r: OrderStatus)
    ensures r == next || r == current
  {
    if Outranks(next, current) then next else current
  }

  /**
    The lock never moves a status backward: the result is the current status,
    or the candidate when and only when it has a strictly higher rank.
  */
  lemma RankLockMonotone(current: OrderStatus, next: OrderStatus)
    ensures RankLock(current, next) != current ==> Outranks(RankLock(current, next), current)
    ensures Outranks(next, current) <==> (RankLock(current, next) == next && next != current)
    ensures Rank(current).None? || Rank(next).None? ==> RankLock(current, next) == current
  {
  }

  /** A candidate of rank 0 (cancelled, failed, rejected) is never written by the lock. */
  lemma RankZeroNeverWritten(current: OrderStatus, next: OrderStatus)
    requires Rank(next) == Some(0)
    ensures RankLock(current, next) == current
  {
  }

  // ---------------------------------------------------------------- phase 1

  /** The status the phase-1 reducer proposes, before the lock. */
  function Phase1Candidate(ps: seq<LineItem>, current: OrderStatus): OrderStatus {
    var approved := Count(ps, HasApproval(ShopApproved));
    var rejected := Count(ps, HasApproval(ShopRejected));
    var total := |ps|;
    if approved + rejected == total then Pending
    else if approved > 0 then PartialPending
    else if rejected == total then Rejected
    else if rejected > 0 then PartialPending
    else current
  }

  /**
    The phase-1 candidate in terms of the line items: every line decided (also
    when all are rejected, and for an empty list) gives `pending`; some but not
    all decided gives `partial-pending`; none decided keeps the status.
  */
  lemma Phase1CandidateCases(ps: seq<LineItem>, current: OrderStatus)
    ensures (forall i :: 0 <= i < |ps| ==> ps[i].approval != ShopPending)
            ==> Phase1Candidate(ps, current) == Pending
    ensures (exists i :: 0 <= i < |ps| && ps[i].approval != ShopPending)
            && (exists i :: 0 <= i < |ps| && ps[i].approval == ShopPending)
            ==> Phase1Candidate(ps, current) == PartialPending
    ensures (forall i :: 0 <= i < |ps| ==> ps[i].approval == ShopPending) && |ps| > 0
            ==> Phase1Candidate(ps, current) == current
  {
    ApprovalCountsPartition(ps);
    CountAll(ps, IsDecided());
    CountNone(ps, IsDecided());
    CountNone(ps, HasApproval(ShopApproved));
    CountNone(ps, HasApproval(ShopRejected));
  }

  /**
    The `rejected` branch is unreachable: whenever every line is rejected the
    first branch already matched, so the candidate is never a new `rejected`.
  */
  lemma Phase1NeverProposesRejected(ps: seq<LineItem>, current: OrderStatus)
    ensures Phase1Candidate(ps, current) == Rejected ==> current == Rejected
    ensures (forall i :: 0 <= i < |ps| ==> ps[i].approval == ShopRejected)
            ==> Phase1Candidate(ps, current) == Pending
  {
    ApprovalCountsPartition(ps);
    CountAll(ps, HasApproval(ShopRejected));
  }

  /** The phase-1 reducer: candidate from approval counts, written only through the lock. */
  function Phase1(o: Order): (r: Order)
    ensures r == o.(status := r.status)
    ensures r.status == o.status || Outranks(r.status, o.status)
  {
    o.(status := RankLock(o.status, Phase1Candidate(o.products, o.status)))
  }

  /**
    Phase-1 only proposes `pending` (rank 1), `partial-pending` (rank 2), or the
    current status, so from any status of rank 2 or more, or an unranked one,
    it changes nothing.
  */
  lemma Phase1InertFromRankTwo(o: Order)
    requires Rank(o.status).None? || Rank(o.status).value >= 2
    ensures Phase1(o) == o
  {
    Phase1NeverProposesRejected(o.products, o.status);
  }

  /**
    Approving every line one after another never yields `pending` once
    `partial-pending` has been written: `partial-pending` outranks `pending`.
  */
  lemma Phase1StuckAtPartialPending(o: Order)
    requires o.status == PartialPending
    requires forall i :: 0 <= i < |o.products| ==> o.products[i].approval == ShopApproved
    ensures Phase1Candidate(o.products, o.status) == Pending
    ensures Phase1(o).status == PartialPending
  {
    Phase1CandidateCases(o.products, o.status);
  }

  // ---------------------------------------------------------------- phase 2

  /** The five fulfilment statuses the phase-2 reducer counts. */
  predicate Counted(st: ItemStatus) {
    st == ItemShipmentPreparation || st == ItemShipped || st == ItemDelivered
    || st == ItemCancelled || st == ItemReturned
  }

  /** The phase-2 status: full coverage against the approved count first, then any partial count. */
  function Phase2Status(ps: seq<LineItem>, current: OrderStatus): OrderStatus {
    var approved := Count(ps, HasApproval(ShopApproved));
    var shipment := Count(ps, HasStatus(ItemShipmentPreparation));
    var shipped := Count(ps, HasStatus(ItemShipped));
    var delivered := Count(ps, HasStatus(ItemDelivered));
    var cancelled := Count(ps, HasStatus(ItemCancelled));
    var returned := Count(ps, HasStatus(ItemReturned));
    if returned == approved then Returned
    else if cancelled == approved then Cancelled
    else if delivered == approved then Delivered
    else if shipped == approved then Shipped
    else if shipment == approved then ShipmentPreparation
    else if returned > 0 then PartialReturned
    else if cancelled > 0 then PartialCancelled
    else if delivered > 0 then PartialDelivered
    else if shipped > 0 then PartialShipped
    else if shipment > 0 then PartialShipmentPreparation
    else current
  }

  /** The phase-2 reducer; no rank lock is applied. */
  function Phase2(o: Order): (r: Order)
    ensures r == o.(status := r.status)
  {
    o.(status := Phase2Status(o.products, o.status))
  }

  /** A handler's write of one line, followed by the phase-2 reducer. */
  function Phase2AfterWrite(o: Order, i: nat, l: LineItem): (r: Order)
    requires i < |o.products|
    ensures OnlyLineChanged(o, r, i) && r.products[i] == l
    ensures r.status == Phase2Status(r.products, o.status)
  {
    Phase2(o.(products := o.products[i := l]))
  }

  /**
    Phase 2 yields one of the ten statuses it names or keeps the current one:
    it never produces `refunded`, `partial-refunded`, `pending` or a phase-1 status.
  */
  lemma Phase2Range(ps: seq<LineItem>, current: OrderStatus)
    ensures var r := Phase2Status(ps, current);
      r == current
      || r in {Returned, Cancelled, Delivered, Shipped, ShipmentPreparation,
               PartialReturned, PartialCancelled, PartialDelivered, PartialShipped,
               PartialShipmentPreparation}
    ensures Phase2Status(ps, current) in {Refunded, PartialRefunded, Pending, PartialPending, Rejected, Failed, PaymentInitiated}
            ==> Phase2Status(ps, current) == current
  {
  }

  /** With no approved line every full-coverage test compares 0 with 0: the result is `returned`. */
  lemma Phase2NoApprovedIsReturned(ps: seq<LineItem>, current: OrderStatus)
    requires forall i :: 0 <= i < |ps| ==> ps[i].approval != ShopApproved
    requires forall i :: 0 <= i < |ps| ==> ps[i].status != ItemReturned
    ensures Phase2Status(ps, current) == Returned
  {
    CountNone(ps, HasApproval(ShopApproved));
    CountNone(ps, HasStatus(ItemReturned));
  }

  /** A non-empty order whose lines are all approved and delivered aggregates to `delivered`. */
  lemma Phase2AllDelivered(ps: seq<LineItem>, current: OrderStatus)
    requires |ps| > 0
    requires forall i :: 0 <= i < |ps| ==> ps[i].approval == ShopApproved && ps[i].status == ItemDelivered
    ensures Phase2Status(ps, current) == Delivered
  {
    CountAll(ps, HasApproval(ShopApproved));
    CountAll(ps, HasStatus(ItemDelivered));
    CountNone(ps, HasStatus(ItemReturned));
    CountNone(ps, HasStatus(ItemCancelled));
  }

  /** Three approved lines, one shipped and two delivered: delivered takes precedence over shipped. */
  lemma Phase2PartialDeliveredExample(a: LineItem, current: OrderStatus)
    requires a.approval == ShopApproved
    ensures var ps := [a.(status := ItemShipped), a.(status := ItemDelivered), a.(status := ItemDelivered)];
      Phase2Status(ps, current) == PartialDelivered
  {
    var ps := [a.(status := ItemShipped), a.(status := ItemDelivered), a.(status := ItemDelivered)];
    assert ps[1..][1..][1..] == [];
    assert Count(ps[2..], HasApproval(ShopApproved)) == 1;
    assert Count(ps[1..], HasApproval(ShopApproved)) == 2;
    assert Count(ps[2..], HasStatus(ItemDelivered)) == 1;
    assert Count(ps[1..], HasStatus(ItemDelivered)) == 2;
    assert Count(ps[1..], HasStatus(ItemShipped)) == 0;
    assert Count(ps[1..], HasStatus(ItemReturned)) == 0;
    assert Count(ps[1..], HasStatus(ItemCancelled)) == 0;
  }

  /**
    Lines in a status phase 2 does not count (pending, return-requested,
    requested, refund-*, refunded, failed) are invisible to it: changing such a
    line to another uncounted status leaves the result unchanged.
  */
  lemma Phase2IgnoresUncounted(ps: seq<LineItem>, i: nat, st: ItemStatus, current: OrderStatus)
    requires i < |ps|
    requires !Counted(ps[i].status) && !Counted(st)
    ensures Phase2Status(ps[i := ps[i].(status := st)], current) == Phase2Status(ps, current)
  {
    var x := ps[i].(status := st);
    var qs := ps[i := x];
    assert Count(qs, HasApproval(ShopApproved)) == Count(ps, HasApproval(ShopApproved)) by {
      CountUpdate(ps, i, x, HasApproval(ShopApproved));
    }
    forall t | Counted(t)
      ensures Count(qs, HasStatus(t)) == Count(ps, HasStatus(t))
    {
      CountUpdate(ps, i, x, HasStatus(t));
    }
  }

  /** Without a rank lock phase 2 can move an order to a lower rank. */
  lemma Phase2CanLowerRank(a: LineItem)
    requires a.approval == ShopApproved && a.status == ItemShipped
    ensures Phase2Status([a], PartialDelivered) == Shipped
    ensures Outranks(PartialDelivered, Shipped)
  {
  }

  // ------------------------------------------- phase 2 against its design

  /** A line that is approved and in status `st`. */
  function IsApprovedIn(st: ItemStatus): LineItem -> bool {
    (l: LineItem) => l.approval == ShopApproved && l.status == st
  }

  /**
    The aggregation as designed: counts taken among approved lines only; full
    coverage when every approved line shares one state, checked most terminal
    first, then a partial status for the first state any approved line is in.
  */
  function DesignPhase2Status(ps: seq<LineItem>, current: OrderStatus): OrderStatus {
    var approved := Count(ps, HasApproval(ShopApproved));
    var shipment := Count(ps, IsApprovedIn(ItemShipmentPreparation));
    var shipped := Count(ps, IsApprovedIn(ItemShipped));
    var delivered := Count(ps, IsApprovedIn(ItemDelivered));
    var cancelled := Count(ps, IsApprovedIn(ItemCancelled));
    var returned := Count(ps, IsApprovedIn(ItemReturned));
    if returned == approved then Returned
    else if cancelled == approved then Cancelled
    else if delivered == approved then Delivered
    else if shipped == approved then Shipped
    else if shipment == approved then ShipmentPreparation
    else if returned > 0 then PartialReturned
    else if cancelled > 0 then PartialCancelled
    else if delivered > 0 then PartialDelivered
    else if shipped > 0 then PartialShipped
    else if shipment > 0 then PartialShipmentPreparation
    else current
  }

  /** Every line in a counted fulfilment status has been approved by its shop. */
  predicate CountedLinesApproved(ps: seq<LineItem>) {
    forall i :: 0 <= i < |ps| && Counted(ps[i].status) ==> ps[i].approval == ShopApproved
  }

  /**
    The source counts statuses over all lines, the design over approved lines;
    the two agree whenever no unapproved line sits in a counted status.
  */
  lemma Phase2MatchesDesign(ps: seq<LineItem>, current: OrderStatus)
    requires CountedLinesApproved(ps)
    ensures Phase2Status(ps, current) == DesignPhase2Status(ps, current)
  {
    CountAgree(ps, HasStatus(ItemShipmentPreparation), IsApprovedIn(ItemShipmentPreparation));
    CountAgree(ps, HasStatus(ItemShipped), IsApprovedIn(ItemShipped));
    CountAgree(ps, HasStatus(ItemDelivered), IsApprovedIn(ItemDelivered));
    CountAgree(ps, HasStatus(ItemCancelled), IsApprovedIn(ItemCancelled));
    CountAgree(ps, HasStatus(ItemReturned), IsApprovedIn(ItemReturned));
  }

  /** A rejected line left in a counted status makes the two disagree. */
  lemma Phase2DiffersFromDesign(a: LineItem)
    requires a.approval == ShopApproved && a.status == ItemShipped
    ensures var ps := [a, a.(approval := ShopRejected)];
      Phase2Status(ps, Pending) == PartialShipped && DesignPhase2Status(ps, Pending) == Shipped
  {
    var ps := [a, a.(approval := ShopRejected)];
    assert ps[1..][1..] == [];
    assert Count(ps[1..], HasApproval(ShopApproved)) == 0;
    assert Count(ps[1..], HasStatus(ItemShipped)) == 1;
    assert Count(ps[1..], IsApprovedIn(ItemShipped)) == 0;
    assert Count(ps[1..], HasStatus(ItemReturned)) == 0;
    assert Count(ps[1..], HasStatus(ItemCancelled)) == 0;
    assert Count(ps[1..], HasStatus(ItemDelivered)) == 0;
    assert Count(ps[1..], HasStatus(ItemShipmentPreparation)) == 0;
    assert Count(ps, HasApproval(ShopApproved)) == 1;
    assert Count(ps, HasStatus(ItemShipped)) == 2;
    assert Count(ps, IsApprovedIn(ItemShipped)) == 1;
    assert Count(ps, IsApprovedIn(ItemReturned)) == 0;
    assert Count(ps, IsApprovedIn(ItemCancelled)) == 0;
    assert Count(ps, IsApprovedIn(ItemDelivered)) == 0;
  }

  /**
    Full coverage, in the design's words: when counted lines are approved, the
    count of `st` equals the approved count exactly when every approved line is in `st`.
  */
  lemma {:induction false} FullCoverageMeaning(ps: seq<LineItem>, st: ItemStatus)
    requires Counted(st) && CountedLinesApproved(ps)
    ensures Count(ps, HasStatus(st)) <= Count(ps, HasApproval(ShopApproved))
    ensures Count(ps, HasStatus(st)) == Count(ps, HasApproval(ShopApproved))
            <==> forall i :: 0 <= i < |ps| && ps[i].approval == ShopApproved ==> ps[i].status == st
  {
    if |ps| > 0 {
      assert CountedLinesApproved(ps[1..]) by {
        forall i | 0 <= i < |ps[1..]| && Counted(ps[1..][i].status)
          ensures ps[1..][i].approval == ShopApproved
        {
          assert ps[1..][i] == ps[i + 1];
        }
      }
      FullCoverageMeaning(ps[1..], st);
      assert forall i :: 1 <= i < |ps| ==> ps[i] == ps[1..][i - 1];
    }
  }
}
