/**
  The data shapes of the multi-shop order lifecycle: actors, order and line
  item records with their status enums, carts, addresses and catalog products.
  Field domains and defaults follow the persistence schemas
  (server/src/DB-Models/order.model.js, product.model.js, user.model.js).
*/
module Domain {
  import opened Wrappers

  /** A document id (a Mongo ObjectId or a generated order id), as text. */
  type Id = string

  /** `role` of a user account: customer, supper-customer, shop-user, admin. */
  datatype Role = Customer | SupperCustomer | ShopUser | Admin

  /** The stored role string. */
  function RoleName(r: Role): string {
    match r
    case Customer => "customer"
    case SupperCustomer => "supper-customer"
    case ShopUser => "shop-user"
    case Admin => "admin"
  }

  /** The authenticated caller of a handler. `shopId` is the shop a shop-user operates. */
  datatype Actor = Actor(id: Id, role: Role, shopId: Option<Id>)

  /** Shop users and administrators are the only roles the order back office admits. */
  predicate IsStaff(role: Role) {
    role == ShopUser || role == Admin
  }

  /** Every way a handler refuses a request; each maps to one reply of the source. */
  datatype Error =
    | MissingField              // 400: a required request field is absent or empty
    | InvalidStatus             // 400: status value outside the handler's list
    | InvalidQuantity           // 400: quantity not a positive integer
    | AccessDenied              // 403: caller's role may not use the handler
    | NotAuthorized             // 403: caller does not own the shop or the order
    | OrderNotFound             // 404
    | LineNotFound              // 404: no such product in the order / cart
    | OrderDelivered            // 400: the order is already delivered
    | LineNotApproved           // 400: the line has not been approved by its shop
    | NotReturnRequested        // 400: the line is not in return-requested
    | ReturnInProgress          // 400: a return is already requested for the line
    | QuantityExceedsPurchase   // 400: refund quantity above the purchased quantity
    | ImagesNotList             // 400: evidence images are not an array
    | AlreadyReturned           // 400
    | ReasonRequired            // 400: blank rejection reason
    | CartEmpty                 // 400 or thrown
    | NoDeliveryAddress         // thrown by order creation
    | NoValidProducts           // thrown by order creation
    | ExceedsMaxQuantity        // quantity above a product's limit
    | OutOfStock                // 400: product not in stock
    | AmountMismatch            // 500: computed order total differs from the cart total
    | PaymentNotCompleted       // 400: the gateway reports a status other than PAID
    | VerificationFailed        // 500: the gateway verification call failed
    | GatewayFailed             // the gateway session call failed
    | ParentDeleted             // 400: restoring below a deleted parent
    | CategoryNotFound          // 404
    | ProductNotFound           // 404
    | InvalidPrice              // 400: price without regular or without discount tiers
    | VariationsNotList         // 400: product variations are not an array
    | VariationNotFound         // 400: a listed variation product does not exist
    | ServerError               // 500: an exception thrown inside the handler

  /** Approval phase of a line item (`shopApproved`: pending / approved / rejected). */
  datatype Approval = ShopPending | ShopApproved | ShopRejected

  /** Fulfilment phase of a line item: exactly the `productStatus` enum. */
  datatype ItemStatus =
    | ItemPending | ItemShipmentPreparation | ItemShipped | ItemDelivered
    | ItemCancelled | ItemReturned | ItemReturnRequested | ItemRequested
    | ItemRefundApproved | ItemRefundRejected | ItemRefunded | ItemFailed

  /** Order-level status: exactly the order `status` enum. */
  datatype OrderStatus =
    | PaymentInitiated
    | Pending | PartialPending
    | ShipmentPreparation | PartialShipmentPreparation
    | Shipped | PartialShipped
    | Delivered | PartialDelivered
    | Cancelled | PartialCancelled
    | Returned | PartialReturned
    | Refunded | PartialRefunded
    | Failed | Rejected

  /** `paymentType` of an order: "cashondelivery" or "onlinepayment". */
  datatype PaymentType = CashOnDelivery | OnlinePayment

  /** The stored spelling of each payment type. */
  function PaymentTypeName(p: PaymentType): string {
    match p
    case CashOnDelivery => "cashondelivery"
    case OnlinePayment => "onlinepayment"
  }

  /** The stored spelling of each fulfilment status. */
  function ItemStatusName(s: ItemStatus): string {
    match s
    case ItemPending => "pending"
    case ItemShipmentPreparation => "shipment-preparation"
    case ItemShipped => "shipped"
    case ItemDelivered => "delivered"
    case ItemCancelled => "cancelled"
    case ItemReturned => "returned"
    case ItemReturnRequested => "return-requested"
    case ItemRequested => "requested"
    case ItemRefundApproved => "refund-approved"
    case ItemRefundRejected => "refund-rejected"
    case ItemRefunded => "refunded"
    case ItemFailed => "failed"
  }

  /** Reading a stored or requested status string back; None for strings outside the enum. */
  function ParseItemStatus(s: string): (r: Option<ItemStatus>)
    ensures r.Some? ==> ItemStatusName(r.value) == s
  {
    if s == "pending" then Some(ItemPending)
    else if s == "shipment-preparation" then Some(ItemShipmentPreparation)
    else if s == "shipped" then Some(ItemShipped)
    else if s == "delivered" then Some(ItemDelivered)
    else if s == "cancelled" then Some(ItemCancelled)
    else if s == "returned" then Some(ItemReturned)
    else if s == "return-requested" then Some(ItemReturnRequested)
    else if s == "requested" then Some(ItemRequested)
    else if s == "refund-approved" then Some(ItemRefundApproved)
    else if s == "refund-rejected" then Some(ItemRefundRejected)
    else if s == "refunded" then Some(ItemRefunded)
    else if s == "failed" then Some(ItemFailed)
    else None
  }

  /** Every fulfilment status reads back as itself, so the enum names are distinct. */
  lemma ItemStatusNameRoundTrip(s: ItemStatus)
    ensures ParseItemStatus(ItemStatusName(s)) == Some(s)
  {
  }

  /** The strings "refund-in-progress" and "partial-refunded" are not fulfilment statuses. */
  lemma NotItemStatuses()
    ensures ParseItemStatus("refund-in-progress") == None
    ensures ParseItemStatus("partial-refunded") == None
  {
  }

  /** The `return` sub-record of a line item. Dates are clock readings. */
  datatype ReturnRecord = ReturnRecord(
    reason: Option<string>,
    description: Option<string>,
    requestDate: Option<int>,
    approvedDate: Option<int>,
    rejectedDate: Option<int>,
    images: seq<string>,
    rejectionReason: Option<string>)

  const NoReturn := ReturnRecord(None, None, None, None, None, [], None)

  /** One product line of an order, with its frozen price and its two phase fields. */
  datatype LineItem = LineItem(
    productId: Id,
    quantity: int,
    regular: int,
    discounted: int,
    maxQuantity: int,
    totalPrice: int,
    shopId: Id,
    status: ItemStatus,
    approval: Approval,
    ret: ReturnRecord,
    trackingLink: Option<string>,
    approvedBy: Option<Id>,
    description: Option<string>)

  /** A fresh line item: both phase fields take their schema defaults. */
  function NewLine(productId: Id, quantity: int, regular: int, discounted: int,
                   maxQuantity: int, shopId: Id): (l: LineItem)
    ensures l.status == ItemPending && l.approval == ShopPending
    ensures l.totalPrice == quantity * discounted
    ensures l.trackingLink.None? && l.approvedBy.None? && l.ret == NoReturn
  {
    LineItem(productId, quantity, regular, discounted, maxQuantity,
             quantity * discounted, shopId, ItemPending, ShopPending,
             NoReturn, None, None, None)
  }

  /** The postal part of an address, as copied into an order. */
  datatype AddressFields = AddressFields(
    name: string, phone: string, house: string, street: string,
    city: string, state: string, zip: string)

  /** A saved address of a user. */
  datatype Address = Address(addressId: Id, fields: AddressFields, country: string, recentlyUsed: bool)

  /** The buyer as recorded in an order. */
  datatype Buyer = Buyer(id: Id, role: Role)

  /** The order aggregate. */
  datatype Order = Order(
    orderId: Id,
    buyer: Buyer,
    included: bool,       // the `include` flag
    products: seq<LineItem>,
    address: AddressFields,
    totalItems: int,
    totalAmount: int,
    status: OrderStatus,
    paymentType: PaymentType)

  /** One line of a cart, as the cart schema stores it. */
  datatype CartItem = CartItem(itemId: Id, productId: Id, regular: int, discounted: int, quantity: int, inStock: bool)

  /** A user's cart with its two stored totals. */
  datatype Cart = Cart(items: seq<CartItem>, totalItems: int, totalPrice: int)

  const EmptyCart := Cart([], 0, 0)

  /** A user account, reduced to the fields the order lifecycle reads or writes. */
  datatype Account = Account(id: Id, role: Role, shopId: Option<Id>, cart: Cart, addresses: seq<Address>)

  /** One discount tier of a product: a minimum quantity and the unit price from it on. */
  datatype Tier = Tier(quantity: int, price: int)

  /**
    A catalog product. `stock` and `status` are kept as the stored strings; the
    shop is absent when the creating account had none.
  */
  datatype Product = Product(
    productId: Id,
    addedBy: Id,
    regular: int,
    tiers: seq<Tier>,
    maxQuantity: int,
    stock: string,
    status: string,
    deleted: bool,
    deletedBy: Option<Id>,
    shopId: Option<Id>)

  /** The catalog: products by id. */
  type Catalog = map<Id, Product>

  function Lookup(catalog: Catalog, id: Id): (r: Option<Product>)
    ensures r.Some? <==> id in catalog
    ensures r.Some? ==> r.value == catalog[id]
  {
    if id in catalog then Some(catalog[id]) else None
  }

  predicate ValidStock(s: string) {
    s == "in_stock" || s == "out_of_stock" || s == "pre_order"
  }

  predicate ValidProductStatus(s: string) {
    s == "active" || s == "inactive" || s == "deleted"
  }

  /** The characters the string trim of the source removes (white space and line terminators). */
  predicate IsTrimmed(c: char) {
    c == '\t' || c == '\n' || c == '\U{000B}' || c == '\U{000C}' || c == '\r'
    || c == ' ' || c == '\U{00A0}' || c == '\U{1680}'
    || ('\U{2000}' <= c <= '\U{200A}')
    || c == '\U{2028}' || c == '\U{2029}' || c == '\U{202F}' || c == '\U{205F}'
    || c == '\U{3000}' || c == '\U{FEFF}'
  }

  /** True when trimming `s` leaves the empty string. */
  predicate IsBlank(s: string) {
    forall i :: 0 <= i < |s| ==> IsTrimmed(s[i])
  }

  /** The guard `!reason || reason.trim() === ""` of both rejection handlers. */
  predicate ReasonMissing(reason: Option<string>) {
    reason.None? || IsBlank(reason.value)
  }

  /**
    The shop-ownership check shared by the line-item handlers, for a caller
    already known to be staff: an administrator always passes; a shop-user
    passes only for the line's own shop. A shop-user without a shop makes the
    source call `toString` on undefined, which throws.
  */
  function ShopCheck(actor: Actor, lineShop: Id): (r: Option<Error>)
    ensures r.None? <==> (actor.role != ShopUser || actor.shopId == Some(lineShop))
    ensures r.Some? ==> r.value == NotAuthorized || r.value == ServerError
  {
    if actor.role != ShopUser then None
    else match actor.shopId
      case None => Some(ServerError)
      case Some(s) => if s == lineShop then None else Some(NotAuthorized)
  }

  /** Who may act on a line item: its own shop's operator, or an administrator. */
  predicate CanActOnLine(actor: Actor, line: LineItem) {
    actor.role == Admin || (actor.role == ShopUser && actor.shopId == Some(line.shopId))
  }

  /** For staff callers the shop check admits exactly those who may act on the line. */
  lemma ShopCheckIsCapability(actor: Actor, line: LineItem)
    requires IsStaff(actor.role)
    ensures ShopCheck(actor, line.shopId).None? <==> CanActOnLine(actor, line)
  {
  }

  /**
    A handler changed at most the line at `line` and the order status: every
    other line and every other order field is kept.
  */
  predicate OnlyLineChanged(o: Order, r: Order, line: nat) {
    && line < |o.products| && |r.products| == |o.products|
    && (forall j :: 0 <= j < |o.products| && j != line ==> r.products[j] == o.products[j])
    && r == o.(products := r.products, status := r.status)
  }

  /** The first position whose element satisfies `p`, as the source's `find` and `findIndex` return it. */
  function FirstIndex<T>(s: seq<T>, p: T -> bool): (r: Option<nat>)
    ensures r.Some? ==> r.value < |s| && p(s[r.value])
    ensures r.Some? ==> forall j :: 0 <= j < r.value ==> !p(s[j])
    ensures r.None? ==> forall j :: 0 <= j < |s| ==> !p(s[j])
  {
    if |s| == 0 then None
    else if p(s[0]) then Some(0)
    else match FirstIndex(s[1..], p)
      case None => None
      case Some(k) => Some(k + 1)
  }

  /** The first position is pinned down by its two properties. */
  lemma FirstIndexIs<T>(s: seq<T>, p: T -> bool, i: nat)
    requires i < |s| && p(s[i])
    requires forall j :: 0 <= j < i ==> !p(s[j])
    ensures FirstIndex(s, p) == Some(i)
  {
  }

  /** The first line of an order whose `productId` matches, as `products.find` returns it. */
  function FindLine(products: seq<LineItem>, productId: Id): (r: Option<nat>)
    ensures r.Some? ==> r.value < |products| && products[r.value].productId == productId
    ensures r.Some? ==> forall j :: 0 <= j < r.value ==> products[j].productId != productId
    ensures r.None? ==> forall j :: 0 <= j < |products| ==> products[j].productId != productId
  {
    FirstIndex(products, (l: LineItem) => l.productId == productId)
  }
}
