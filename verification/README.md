# E-Com-Shop order lifecycle, cart and catalog rules in Dafny

This project models the core of a multi-vendor shop backend. It is written in
Dafny and its properties are proved by the Dafny verifier. The modelled parts are:

- **Carts.** A customer fills a cart. Each line is priced by the product's
  quantity tiers. The cart's totals are recomputed after every change.
- **Checkout.** Checkout freezes the cart into an order of line items, each
  belonging to one shop. The order starts in `paymentInitiated` and is placed
  (`shipment-preparation`) once the payment gateway reports it paid.
- **Shop approval.** Each shop approves or rejects its own lines. A phase-1
  reducer then recomputes the order status, and a rank lock lets the status
  only move up the rank table.
- **Fulfilment.** Shops move their lines through shipment and delivery. A
  phase-2 reducer recomputes the order status, without the lock.
- **Returns.** A buyer may request a return of a line. Staff approve, reject
  or complete the refund.
- **Catalog.** Staff soft-delete and restore categories and subcategories, and
  create and update products under price and status rules.

Every request handler is a pure function:

- **Inputs:** the documents the handler loads (an `Option`, None when the
  lookup finds nothing), the authenticated caller (`Actor`), the request
  fields, and a clock reading `now` where the handler stamps a date.
- **Result:** what the handler would save, or the error it answers with.

The modules follow the source files:

| module | file | contents |
|---|---|---|
| `Wrappers` | `wrappers.dfy` | `Option` and `Result` |
| `Domain` | `domain.dfy` | the schemas of `server/src/DB-Models` as datatypes, the shop-ownership check, and first-match search |
| `Pricing` | `pricing.dfy` | the tier walk shared by the cart and order creation |
| `Aggregation` | `aggregation.dfy` | the rank table, the lock, and both reducers of `order.controller.js` |
| `Approval`, `Fulfilment`, `Returns` | | the line-item handlers of `order.controller.js` and the return routes |
| `Cart`, `Catalog` | | the cart and catalog handlers of `product.controller.js` |
| `Addresses`, `Checkout` | | the address and order-placement handlers of `auth.controller.js` |

JavaScript semantics are written out where they decide an outcome:

- **Comparisons with `undefined`.** `STATUS_RANK[s]` is undefined for
  `paymentInitiated` and `partial-cancelled`. A comparison with it is false, so
  the lock writes nothing; see `Aggregation.RankLock`.
- **Fields missing from a schema.** A cart line has no `maxQuantity` path, so
  the update handler's bound check compares with `undefined` and never fires.
  The user schema names its flag `isDeleted`, so every `user.deleted === false`
  guard is false and the role guards are plain role checks.
- **`||` defaults.** Order lines start at `regular || 1`, cart lines at
  `regular || 0`.
- **Mongoose behaviour.**
  - Order creation validates the buyer-role enum and the required shop of each line.
  - `findByIdAndUpdate` runs no validators.
  - A positional `$` update sets the first matching array element.

## Where the design and the code differ

The model follows the code throughout. The intended design differs in these places:

- **Approval is not final.** An approved or rejected line can be decided
  again (`Approval.AcceptOverridesRejection`).
- **Approval is not shop-scoped.** Any shop-user may approve another shop's
  line (`Approval.AcceptIgnoresShop`).
- **No order becomes `rejected`.** Phase 1 answers `pending` when every line
  is rejected; its `rejected` branch cannot be reached.
- **Phase 1 does nothing after placement.** It proposes only ranks 1 and 2,
  while placement writes `shipment-preparation` (rank 3).
- **Phase 2 counts every line, not only approved ones.** It also has no rank lock.
- **Rejecting a line crashes.** The rejection handler calls phase 2 without
  its argument and throws before saving.
- **The payment-type status writes are dead.** The handler compares with
  `cash-on-delivery` and `online-payment`, but the enum stores
  `cashondelivery` and `onlinepayment`.
- **A line at its maximum aborts the whole order.** It is not skipped. The cart
  accepts a quantity equal to the maximum, but order creation requires a
  quantity strictly below it.
- **An amount mismatch at checkout is answered as an error, but the order stays
  saved.** The next payment verification can still place it.
- **Placement, the include toggle and failed payment verification write the
  order status directly, past the rank lock.**
- **The return checks are looser than designed.**
  - A return can be requested for a line that was never delivered.
  - A second request while one is in progress is overwritten, not refused.
  - The route named "return accept" is served by the shop-approval handler.

## Model

| member | source | states |
|---|---|---|
| Domain.ParseItemStatus | server/src/DB-Models/order.model.js:44-62 | a string is read as a fulfilment status only if it is that status's stored spelling |
| Domain.ItemStatusNameRoundTrip | server/src/DB-Models/order.model.js:44-62 | each of the twelve fulfilment statuses reads back as itself, so the enum spellings are distinct |
| Domain.NotItemStatuses | server/src/Controller/order.controller.js:196-197 | "refund-in-progress", which the reject handler would write, is not a fulfilment status, and neither is "partial-refunded" |
| Domain.NewLine | server/src/DB-Models/order.model.js:35-67 | a new line starts pending in both phases, with no return record, and its total is quantity times unit price |
| Domain.ShopCheck | server/src/Controller/order.controller.js:488-493 | an administrator always passes; a shop-user passes only for the line's own shop, and one without a shop fails with a server error |
| Domain.ShopCheckIsCapability | server/src/Controller/order.controller.js:542-547 | for staff, passing the shop check is the same as being allowed to act on the line (administrator, or that shop's operator) |
| Domain.FindLine | server/src/Controller/order.controller.js:477-479 | the line found is the first whose product id matches; None means no line matches |
| Pricing.LastMatch | server/src/Controller/auth.controller.js:1175-1180 | reference definition: the last tier in array order whose minimum the quantity reaches, with no later tier reached |
| Pricing.ApplyTiersIsLastMatch | server/src/Controller/product.controller.js:515-520 | the source's tier loop yields the price of the last tier reached, or the start price when none is |
| Pricing.StartPriceOnlyMattersBelowAllTiers | server/src/Controller/product.controller.js:507-512 | the start price matters only when no tier is reached |
| Pricing.AscendingPicksHighestTier | server/src/Controller/auth.controller.js:1176-1180 | with tiers listed by ascending minimum, the last tier reached has the highest reached minimum |
| Pricing.UnorderedTiersPickLastListed | server/src/Controller/auth.controller.js:1176-1180 | with unordered tiers the position decides: quantity 6 against tiers (5→80, 2→90) costs 90, not 80 |
| Pricing.ApplyTiersGrow | server/src/Controller/product.controller.js:506-513 | re-walking the tiers from the price earned at a smaller quantity gives the fresh price for the larger one |
| Aggregation.ApprovalCountsPartition | server/src/Controller/order.controller.js:103-111 | the approved, rejected and pending counts add up to the number of lines |
| Aggregation.UnrankedStatuses | server/src/Controller/order.controller.js:5-27 | exactly `paymentInitiated` and `partial-cancelled` of the order enum have no rank |
| Aggregation.RankLock | server/src/Controller/order.controller.js:127-130 | the lock keeps the current status or writes the candidate |
| Aggregation.RankLockMonotone | server/src/Controller/order.controller.js:127-130 | the candidate is written iff its rank is strictly greater; with a missing rank on either side nothing is written |
| Aggregation.RankZeroNeverWritten | server/src/Controller/order.controller.js:24-26 | a rank-0 candidate (cancelled, failed, rejected) is never written by the lock |
| Aggregation.Phase1CandidateCases | server/src/Controller/order.controller.js:113-125 | all lines decided gives `pending`; some but not all decided gives `partial-pending`; none decided keeps the status |
| Aggregation.Phase1NeverProposesRejected | server/src/Controller/order.controller.js:117-122 | an all-rejected order yields `pending`; the `rejected` branch never proposes a new status |
| Aggregation.Phase1 | server/src/Controller/order.controller.js:100-133 | phase 1 changes only the status, and only to one that outranks the current one |
| Aggregation.Phase1InertFromRankTwo | server/src/Controller/order.controller.js:115-130 | from an unranked status or one of rank 2 or more, phase 1 changes nothing |
| Aggregation.Phase1StuckAtPartialPending | server/src/Controller/order.controller.js:117-130 | once `partial-pending`, an order whose lines are all approved stays there, although the candidate is `pending` |
| Aggregation.Phase2 | server/src/Controller/order.controller.js:393-435 | phase 2 changes only the order status |
| Aggregation.Phase2Range | server/src/Controller/order.controller.js:413-433 | phase 2 yields one of its ten named statuses or keeps the current one; it never yields refunded, pending or rejected |
| Aggregation.Phase2NoApprovedIsReturned | server/src/Controller/order.controller.js:408-414 | with no approved line and no returned line, the status becomes `returned` (0 equals 0) |
| Aggregation.Phase2AllDelivered | server/src/Controller/order.controller.js:417-418 | a non-empty order whose lines are all approved and delivered becomes `delivered` |
| Aggregation.Phase2PartialDeliveredExample | server/src/Controller/order.controller.js:423-430 | with one shipped and two delivered approved lines, `partial-delivered` takes precedence |
| Aggregation.Phase2IgnoresUncounted | server/src/Controller/order.controller.js:402-407 | moving a line between statuses phase 2 does not count leaves its result unchanged |
| Aggregation.Phase2CanLowerRank | server/src/Controller/order.controller.js:393-435 | phase 2 can move `partial-delivered` (rank 8) down to `shipped` (rank 5) |
| Aggregation.Phase2MatchesDesign | server/src/Controller/order.controller.js:402-433 | when every line in a counted status is approved, counting all lines equals counting approved lines only |
| Aggregation.Phase2DiffersFromDesign | server/src/Controller/order.controller.js:402-411 | a rejected line left in `shipped` makes the source say `partial-shipped` where the approved-only count says `shipped` |
| Aggregation.FullCoverageMeaning | server/src/Controller/order.controller.js:413-422 | when counted lines are approved, a status's count equals the approved count iff every approved line has that status |
| Approval.AcceptLine | server/src/Controller/order.controller.js:136-165 | staff only; succeeds iff the order and line exist; the line becomes approved with the approver recorded; nothing else changes but the status, which is phase 1's candidate for the new lines passed through the rank lock, so it never moves to a lower rank |
| Approval.AcceptOverridesRejection | server/src/Controller/order.controller.js:153-158 | a rejected line can be accepted: the decision is not final |
| Approval.AcceptIgnoresShop | server/src/Controller/order.controller.js:139-158 | a shop-user can accept a line of another shop |
| Approval.RejectPaymentBranchesDead | server/src/Controller/order.controller.js:194-198 | neither payment-type branch fires for either stored payment type |
| Approval.RejectLineAsWritten | server/src/Controller/order.controller.js:167-207 | rejection never succeeds; past its guards it fails with a server error |
| Approval.RejectLine | server/src/Controller/order.controller.js:167-207 | corrected rejection: needs staff, a non-blank reason, the order and the line; the line becomes rejected with the reason and approver; nothing else but the status changes, and it becomes phase 2's verdict on the new lines, then phase 1's candidate through the rank lock |
| Approval.RejectCorrectionPersists | server/src/Controller/order.controller.js:199 | the corrected handler succeeds exactly where the source fails with a server error, and fails alike elsewhere |
| Approval.RejectCanLowerRankToDelivered | server/src/Controller/order.controller.js:199-200 | the corrected rejection of a delivered line next to a shipped one drops `partial-delivered` to `delivered` |
| Approval.AcceptAllMonotone | server/src/Controller/order.controller.js:127-130 | over any sequence of accepts the rank never falls, the header and line count are kept, and every named line ends approved |
| Approval.AcceptStaysApproved | server/src/Controller/order.controller.js:157 | an approved line stays approved through further accepts |
| Approval.AcceptAllAfterPlacement | server/src/Controller/order.controller.js:115-130 | from rank 2 or more, or an unranked status, no sequence of accepts changes the order status |
| Approval.TwoApprovalsEndPartialPending | server/src/Controller/order.controller.js:117-130 | two accepts on a two-line order end at `partial-pending` though a single pass over the final lines proposes `pending` |
| Fulfilment.UpdatableNamesAreStatuses | server/src/Controller/order.controller.js:446-458 | each status the update handler accepts is a fulfilment status of the enum |
| Fulfilment.UpdateOrderStatus | server/src/Controller/order.controller.js:436-508 | succeeds iff the fields are present, the status allowed, the caller staff, the order not delivered, and the first line with the product approved and the caller's; sets that line's status, then phase 2 |
| Fulfilment.UpdateTrackingLink | server/src/Controller/order.controller.js:510-560 | same guards without the approval check; sets only the first matching line's tracking link, status untouched |
| Fulfilment.DeliveringLastLineLocksOrder | server/src/Controller/order.controller.js:472-476 | delivering the last undelivered line of an all-approved order makes it `delivered`; both handlers then refuse it |
| Returns.RequestReturnAsWritten | server/src/Controller/order.controller.js:633-711 | the source saves the request iff the checks after the line lookup pass, and answers "return in progress" whenever the line already is return-requested |
| Returns.RequestReturn | server/src/Controller/order.controller.js:633-711 | corrected request: the buyer's own line, not return-requested or returned, quantity in 1..purchased, images a list; the line becomes return-requested with request date, cleared decision dates and "" defaults; the request's images are stored and an earlier rejection reason is kept |
| Returns.DuplicateReturnRequest | server/src/Controller/order.controller.js:667-669 | the two versions agree on every success; on a repeated request the source saves while the corrected one refuses |
| Returns.ExcessiveReturnRefused | server/src/Controller/order.controller.js:670-674 | a quantity above the purchased one is refused and nothing is saved |
| Returns.ReturnQuantityNotRecorded | server/src/Controller/order.controller.js:695-701 | the accepted quantity is not stored: any two valid quantities give the same order |
| Returns.ReturnWithoutDelivery | server/src/Controller/order.controller.js:661-682 | a line still pending can be returned |
| Returns.CompleteRefund | server/src/Controller/order.controller.js:712-765 | succeeds iff staff, line found, caller's shop and return-requested; only that line changes, to refunded, then phase 2 |
| Returns.ApproveRefund | server/src/Controller/order.controller.js:766-818 | same guards; the line becomes refund-approved with the approval dated and the rejection date cleared |
| Returns.RejectRefund | server/src/Controller/order.controller.js:819-879 | same guards plus a non-blank reason; the line becomes refund-rejected with the reason, dated, approval date cleared |
| Returns.RejectRefundNeedsReason | server/src/Controller/order.controller.js:837-840 | a blank or missing reason is refused |
| Returns.ApprovedRefundCannotComplete | server/src/Controller/order.controller.js:745-751 | after approval a refund can no longer be completed |
| Returns.CompleteRefundNeverRefundsOrder | server/src/Controller/order.controller.js:751-752 | completing a refund never makes the order `refunded` or `partial-refunded` |
| Returns.ReturnAcceptRoute | server/src/Routes/order.routes.js:23 | the "return accept" route succeeds as the approval handler does and leaves the line's fulfilment status as it was |
| Returns.ReturnAcceptRouteLeavesRequest | server/src/Routes/order.routes.js:23 | accepting a requested return through that route leaves the line return-requested |
| Returns.ReturnAcceptRouteCorrected | server/src/Controller/order.controller.js:766-818 | served by the refund approval, the route succeeds under its guards and the line becomes refund-approved |
| Cart.SumsAppend | server/src/Controller/product.controller.js:538-547 | the two reduces that recompute the totals split over concatenation, so appending a line adds exactly its quantity and its quantity × price |
| Cart.AddToCart | server/src/Controller/product.controller.js:465-557 | succeeds iff the product exists, quantity positive, in stock, and the product's total stays within its maximum; the quantity grows by exactly the request, other products' lines are kept |
| Cart.AddKeepsProductsUnique | server/src/Controller/product.controller.js:493-536 | adding keeps one line per product |
| Cart.AddKeepsCartValid | server/src/Controller/product.controller.js:497-536 | adding keeps every line within 1..maximum and priced by its quantity's tier |
| Cart.AddTwiceIsAddOnce | server/src/Controller/product.controller.js:497-536 | adding q1 then q2 of a new product equals adding q1+q2 at once, price included |
| Cart.Without | server/src/Controller/product.controller.js:576-578 | the filtered list is no longer than the cart and holds no line with the removed id |
| Cart.WithoutMembers | server/src/Controller/product.controller.js:576-578 | a line survives the filter iff it was in the cart and its id differs from the removed one |
| Cart.RemoveFromCart | server/src/Controller/product.controller.js:559-607 | refuses an empty cart and a missing id; keeps exactly the other lines, totals recomputed |
| Cart.RemoveSubtractsLine | server/src/Controller/product.controller.js:576-594 | removing a line lowers both totals by exactly its contribution |
| Cart.RemoveUnknownIdKeepsLines | server/src/Controller/product.controller.js:575-579 | an unknown id is no error and keeps all lines |
| Cart.RemoveKeepsCartValid | server/src/Controller/product.controller.js:559-607 | removing keeps the limits and pricing invariants |
| Cart.UpdateQuantityAsWritten | server/src/Controller/product.controller.js:609-681 | the source's update: succeeds iff the line and an in-stock product exist; `change` becomes the quantity, 0 removes the line, others are kept |
| Cart.UpdateAsWrittenExceedsLimit | server/src/Controller/product.controller.js:631-647 | the source saves a quantity above the product's maximum |
| Cart.UpdateAsWrittenKeepsStalePrice | server/src/Controller/product.controller.js:656-660 | the source keeps the tier price when the quantity drops below the tier |
| Cart.UpdateQuantity | server/src/Controller/product.controller.js:609-681 | corrected update: also refuses a quantity above the product's maximum and prices the line afresh |
| Cart.UpdateKeepsCartValid | server/src/Controller/product.controller.js:631-660 | the corrected update keeps every line within limits and priced by its quantity |
| Cart.UpdateVersionsAgree | server/src/Controller/product.controller.js:650-654 | setting 0 removes the line identically in both versions |
| Addresses.DeliveryAddress | server/src/Controller/auth.controller.js:1161 | the delivery address is the first one flagged; None iff none is |
| Addresses.AddAddress | server/src/Controller/auth.controller.js:1061-1100 | the new address is appended in India and flagged, all others unflagged and otherwise kept; it becomes the delivery address |
| Addresses.ChangeAddress | server/src/Controller/auth.controller.js:1102-1126 | all flags cleared, then the first address with the id flagged; a delivery address exists afterwards iff some address has the id |
| Addresses.ChangeSelectsFirstWithId | server/src/Controller/auth.controller.js:1112-1114 | the first address carrying the id becomes the delivery address |
| Checkout.BuildLines | server/src/Controller/auth.controller.js:1164-1199 | lines are built iff every kept cart line is below its maximum; the lines are exactly the kept lines (one order line per existing, undeleted, in-stock cart line, in cart order), each pending with total = quantity × price |
| Checkout.OrderLinePrice | server/src/Controller/auth.controller.js:1175-1191 | an order line's unit price is the price of the last tier its quantity reaches, or, when none is, the regular price with 0 read as 1; quantity, regular price and maximum are copied |
| Checkout.KeptLinesFromOrderable | server/src/Controller/auth.controller.js:1168-1172 | every line an order gets is the order line of an orderable cart line |
| Checkout.KeptLinesCoverOrderable | server/src/Controller/auth.controller.js:1168-1172 | every orderable cart line gets its order line |
| Checkout.KeptLinesSkipUnorderable | server/src/Controller/auth.controller.js:1169 | no order line carries a product that is missing, deleted or out of stock |
| Checkout.BuildLinesMatchCartSums | server/src/Controller/auth.controller.js:1214-1215 | when every cart line is kept and priced by its quantity, the order's sums equal the cart's |
| Checkout.CreateOrder | server/src/Controller/auth.controller.js:1151-1223 | succeeds iff the cart is non-empty, an address is flagged, lines are within limits, one is kept, the buyer role fits the schema and every line has a shop; its lines are exactly the kept lines; the order is `paymentInitiated`, included, online, with consistent totals |
| Checkout.CartAtMaximumCannotOrder | server/src/Controller/auth.controller.js:1170-1174 | a cart line at exactly the maximum, which the cart accepts, makes order creation fail |
| Checkout.DeletedProductAddedButNotOrdered | server/src/Controller/auth.controller.js:1169 | the cart accepts a deleted product and holds a line of it, and an order created from that cart has no line of it |
| Checkout.StartCheckout | server/src/Controller/auth.controller.js:1362-1425 | an order is saved iff the gateway answers and creation succeeds; the reply is a success iff its amount equals the cart total, else a mismatch with the order still saved |
| Checkout.ConsistentCartChecksOut | server/src/Controller/auth.controller.js:1407-1413 | a cart with current totals and quantity-priced kept lines checks out without mismatch |
| Checkout.ZeroRegularPriceMismatch | server/src/Controller/auth.controller.js:1175 | a product of regular price 0 costs 0 in the cart and 1 in the order: mismatch, order saved |
| Checkout.PlaceOrder | server/src/Controller/auth.controller.js:1225-1244 | the order becomes `shipment-preparation`, excluded for a super-customer, the cart emptied; fails iff the order or buyer is missing |
| Checkout.PlacementBypassesLock | server/src/Controller/auth.controller.js:1236 | placement can lower a delivered order, and afterwards no accept changes its status |
| Checkout.VerifyPayment | server/src/Controller/auth.controller.js:1427-1484 | success iff the gateway reports PAID for the caller; not paid marks the order failed; PAID for someone else changes nothing |
| Checkout.ReverifyCanFailPlacedOrder | server/src/Controller/auth.controller.js:1461-1466 | re-verifying a placed order that is no longer PAID lowers it to `failed` |
| Checkout.OrderToInclude | server/src/Controller/auth.controller.js:1298-1341 | staff, the flag given, order found and not delivered; false cancels and excludes, true includes and sets `shipment-preparation` |
| Checkout.IncludeBypassesLock | server/src/Controller/auth.controller.js:1325-1331 | excluding a shipped order writes rank-0 `cancelled`; including it lowers it to rank 3 |
| Checkout.SuperCustomerOrderAwaitsInclusion | server/src/Controller/auth.controller.js:1232-1234 | a super-customer's placed order is excluded until staff include it |
| Catalog.ToggleCategory | server/src/Controller/product.controller.js:1389-1469 | succeeds iff staff, ids given, category found and not a restore under a deleted super-category; flips it, stamps it, and sets every subcategory to its state |
| Catalog.ToggleSubcategory | server/src/Controller/product.controller.js:1471-1534 | succeeds iff staff, ids given, found, and not a restore under a deleted category; flips and stamps only that subcategory |
| Catalog.TogglesKeepTreeConsistent | server/src/Controller/product.controller.js:1433-1444 | both toggles keep every deleted category free of live subcategories |
| Catalog.RestoreRevivesAllSubcategories | server/src/Controller/product.controller.js:1446-1457 | delete then restore revives every subcategory, also those deleted on their own before |
| Catalog.CreateProduct | server/src/Controller/product.controller.js:684-822 | succeeds iff staff, required fields, variations a list, a price with regular and at least one tier, every variation found, and on save valid stock and status and the other validators; the product is not deleted and belongs to the caller's shop |
| Catalog.CreateDeletedStatusNotDeleted | server/src/Controller/product.controller.js:767-801 | the deleted flag matches the status iff the status asked for is not "deleted" |
| Catalog.UpdateProductAsWritten | server/src/Controller/product.controller.js:973-1072 | the source's update succeeds iff staff, product found and any price valid, so ownership is never checked; a success writes the whole body the same way as the corrected handler |
| Catalog.UpdateAsWrittenIgnoresOwner | server/src/Controller/product.controller.js:992-1000 | a shop-user updates another account's product in the source; the corrected handler refuses |
| Catalog.UpdateProduct | server/src/Controller/product.controller.js:973-1072 | corrected update: a shop-user only its own products; status "deleted" marks deleted by the caller, another non-empty status restores, without one the body's own deletion keys apply; every given key replaces the stored field, owner and shop included; the id is kept |
| Catalog.DeletedKeyWithoutStatus | server/src/Controller/product.controller.js:1001-1064 | a body `{deleted: false}` revives a product whose status stays "deleted" |
| Catalog.UpdateCanReassignOwner | server/src/Controller/product.controller.js:977-1064 | a body carrying `addedBy` hands the product to another account, after which its former owner is refused |
| Catalog.UpdateKeepsDeletedInStep | server/src/Controller/product.controller.js:1001-1010 | an update naming a non-empty status leaves the deleted flag in step with it |
| Catalog.UpdateSkipsValidation | server/src/Controller/product.controller.js:1056-1064 | an update stores stock and status strings outside their enums |

## Left out

- File handling: moving uploaded images and thumbnails from the temp folder is file I/O. A return request keeps only the image names.
- Clocks and generated ids: dates are the `now` parameter. New order, address and cart-line ids are parameters too.
- The payment gateway's HTTP calls are parameters: the session order id, and the verification result, status and customer id.
- Document lookups are parameters (`found`, `buyer`, the catalog map). Accept and reject address a line by subdocument id, modelled as the line's position; lines are never removed from an order.
- Display fields (titles, names, e-mail, phone, thumbnails, the approver's name, shop name and number) are not modelled. The creation request's other fields count only as present or absent, or, for the schema's own validators, as one `othersValid` flag. An update body's other keys (title, description, images, category, `deletedAt`) are written as given and are not modelled; a body that sets `_id` fails in the database and is not modelled either.
- Numbers are unbounded integers. Fractional prices, NaN and non-integer quantities are not modelled.
- A missing `change` in the quantity update is not modelled.
- The `include` value of orderToInclude is tested raw with `=== false`, and nothing casts it first. Any value other than the boolean false, such as "false", 0 or null, takes the include branch: the order goes to `shipment-preparation` with include true. The model folds all of these into Some(true).
- Concurrency: placement is not awaited by verifyPayment, and two requests may interleave. Each handler is modelled as one atomic step.
- The super-category toggle, brands, `setOrderforSuperCoustmorer`, the linking of variations (each listed product gets the new id and is saved before the new product is), and the listing, search and restore handlers are not part of this model.
- Checkout.CreateOrder: the "user not found" error and the save-time validation of other required fields are not modelled. Their failures are covered only by the buyer-role and shop checks.
- Cart.UpdateQuantityAsWritten: the `inStock = false` write on an out-of-stock product is not modelled, because the handler returns before saving it.
- Catalog.ToggleSubcategory: a missing subcategory answers the same not-found error as a missing category.
- Catalog.UpdateProduct: a key sent as null is not modelled; the model's keys are absent or carry a value. In the source a null `price` is falsy, so it skips the price rule, and `$set` then writes the price as null. A null `status`, `stock` or `maxQuantity` is written as null too. Product prices, stock, status and maximum are non-null in this model, because the cart and order code reads them unguarded.
- Catalog.UpdateProductAsWritten: the same null-valued keys are not modelled, for the same reason.

## Findings

| source | as written | input that shows it | evidently intended | confidence | as-written member | corrected member |
|---|---|---|---|---|---|---|
| server/src/Controller/order.controller.js:199 | the phase-2 reducer is called without the order, so it reads `undefined.products` and throws | any valid rejection by staff with a reason | pass the order, save the rejection | high, not executed | Approval.RejectLineAsWritten | Approval.RejectLine |
| server/src/Controller/order.controller.js:667-669 | "Return in progress" is answered without `return`, so the handler goes on and overwrites the request | a second return request for a line already return-requested, with a valid quantity | refuse the second request and save nothing | high, not executed | Returns.RequestReturnAsWritten | Returns.RequestReturn |
| server/src/Routes/order.routes.js:23 | the "return accept" route calls the shop-approval handler | accepting a return-requested, approved line through that route | call the refund approval, which moves the line to refund-approved | high, not executed | Returns.ReturnAcceptRoute | Returns.ReturnAcceptRouteCorrected |
| server/src/Controller/product.controller.js:631-647 | the bound reads `cartItem.maxQuantity`, which the cart schema drops, so it never fires | a line of a product with maximum 5, updated to 9 | refuse a quantity above the product's maximum | medium, not executed | Cart.UpdateQuantityAsWritten | Cart.UpdateQuantity |
| server/src/Controller/product.controller.js:656-660 | the tier walk starts from the line's current price | a line of 5 at tier price 80 (regular 100, tier from 5) set to 2 keeps 80 | re-price from the regular price | high, not executed | Cart.UpdateAsWrittenKeepsStalePrice | Cart.UpdateQuantity |
| server/src/Controller/product.controller.js:993 | the ownership test compares the role with "Shop-user", which no stored role equals | a shop-user updating a product another account added | refuse updates to another account's product | high, not executed | Catalog.UpdateProductAsWritten | Catalog.UpdateProduct |

The supporting lemmas for each row:

| finding | lemma | states |
|---|---|---|
| phase-2 call (line 199) | Approval.RejectCorrectionPersists | the corrected handler succeeds exactly where the source fails |
| repeated return request | Returns.DuplicateReturnRequest | the two versions differ on the repeated request |
| "return accept" route | Returns.ReturnAcceptRouteLeavesRequest | accepting through the route leaves the line return-requested |
| quantity bound | Cart.UpdateAsWrittenExceedsLimit | the source stores a quantity above the maximum |
| | Cart.UpdateKeepsCartValid | the corrected version keeps every line within limits |
| stale tier price | Cart.UpdateKeepsCartValid | the corrected version keeps every line priced by its quantity |
| "Shop-user" casing | Catalog.UpdateAsWrittenIgnoresOwner | the source lets a shop-user update another account's product, and the corrected handler refuses |
