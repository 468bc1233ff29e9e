/**
  Catalog rules (server/src/Controller/product.controller.js:684-822,
  973-1072, 1389-1534; server/src/DB-Models/product.model.js and
  categori.model.js): the soft-delete toggles of categories and
  subcategories, and the price and status rules of product creation and update.
*/
module Catalog {
  import opened Wrappers
  import opened Domain

  // ---------------------------------------------------------------- category tree

  datatype Subcategory = Subcategory(subId: Id, deleted: bool, deletedBy: Option<Id>, deletedAt: Option<int>)

  datatype Category = Category(categoryId: Id, subs: seq<Subcategory>, deleted: bool,
                               deletedBy: Option<Id>, deletedAt: Option<int>)

  /** A super-category document, holding its categories. */
  datatype SuperCategory = SuperCategory(superId: Id, categories: seq<Category>, deleted: bool)

  /** A deleted category has only deleted subcategories. */
  predicate CategoryConsistent(c: Category) {
    c.deleted ==> forall m :: 0 <= m < |c.subs| ==> c.subs[m].deleted
  }

  /** Every category of the document is consistent. */
  predicate TreeConsistent(s: SuperCategory) {
    forall j :: 0 <= j < |s.categories| ==> CategoryConsistent(s.categories[j])
  }

  /** Deletion bookkeeping after a toggle: who and when while deleted, nothing once restored. */
  predicate Stamped(deleted: bool, deletedBy: Option<Id>, deletedAt: Option<int>, actor: Actor, now: int) {
    if deleted then deletedBy == Some(actor.id) && deletedAt == Some(now) else deletedBy.None? && deletedAt.None?
  }

  function StampSub(s: Subcategory, deleted: bool, actor: Actor, now: int): Subcategory {
    if deleted then s.(deleted := true, deletedBy := Some(actor.id), deletedAt := Some(now))
    else s.(deleted := false, deletedBy := None, deletedAt := None)
  }

  /** Every subcategory set to the category's new state, as both cascades do. */
  function CascadeSubs(subs: seq<Subcategory>, deleted: bool, actor: Actor, now: int): (r: seq<Subcategory>)
    ensures |r| == |subs|
    ensures forall m :: 0 <= m < |r| ==> r[m] == StampSub(subs[m], deleted, actor, now)
  {
    seq(|subs|, m requires 0 <= m < |subs| => StampSub(subs[m], deleted, actor, now))
  }

  function CategoryWithId(categoryId: Id): Category -> bool {
    (c: Category) => c.categoryId == categoryId
  }

  function SubWithId(subId: Id): Subcategory -> bool {
    (s: Subcategory) => s.subId == subId
  }

  /** What toggleDeleteCategory checks before writing. */
  predicate CategoryToggleAllowed(found: Option<SuperCategory>, actor: Actor, superId: Id, categoryId: Id) {
    && IsStaff(actor.role) && superId != "" && categoryId != ""
    && found.Some? && FirstIndex(found.value.categories, CategoryWithId(categoryId)).Some?
    && !(found.value.categories[FirstIndex(found.value.categories, CategoryWithId(categoryId)).value].deleted
         && found.value.deleted)
  }

  /**
    toggleDeleteCategory: flips the category's deleted flag and sets every one
    of its subcategories to the same state. Restoring under a deleted
    super-category is refused; deleting under one is not.
  */
  function ToggleCategory(found: Option<SuperCategory>, actor: Actor, superId: Id, categoryId: Id,
                          now: int): (r: Result<SuperCategory, Error>)
    ensures r.Ok? <==> CategoryToggleAllowed(found, actor, superId, categoryId)
    ensures r.Ok? ==>
      var s := found.value;
      var k := FirstIndex(s.categories, CategoryWithId(categoryId)).value;
      && r.value == s.(categories := r.value.categories)
      && |r.value.categories| == |s.categories|
      && (forall j :: 0 <= j < |s.categories| && j != k ==> r.value.categories[j] == s.categories[j])
      && var c := r.value.categories[k];
         && c.categoryId == categoryId && c.deleted == !s.categories[k].deleted
         && Stamped(c.deleted, c.deletedBy, c.deletedAt, actor, now)
         && |c.subs| == |s.categories[k].subs|
         && (forall m :: 0 <= m < |c.subs| ==>
               c.subs[m].subId == s.categories[k].subs[m].subId && c.subs[m].deleted == c.deleted
               && Stamped(c.subs[m].deleted, c.subs[m].deletedBy, c.subs[m].deletedAt, actor, now))
  {
    if !IsStaff(actor.role) then Err(AccessDenied)
    else if superId == "" || categoryId == "" then Err(MissingField)
    else if found.None? then Err(CategoryNotFound)
    else
      var s := found.value;
      match FirstIndex(s.categories, CategoryWithId(categoryId))
      case None => Err(CategoryNotFound)
      case Some(k) =>
        var c := s.categories[k];
        if c.deleted && s.deleted then Err(ParentDeleted)
        else
          var deleted := !c.deleted;
          var c' := c.(deleted := deleted,
                       deletedBy := if deleted then Some(actor.id) else None,
                       deletedAt := if deleted then Some(now) else None,
                       subs := CascadeSubs(c.subs, deleted, actor, now));
          Ok(s.(categories := s.categories[k := c']))
  }

  /** What toggleDeleteSubCategory checks before writing. */
  predicate SubToggleAllowed(found: Option<SuperCategory>, actor: Actor, superId: Id, categoryId: Id, subId: Id) {
    && IsStaff(actor.role) && superId != "" && categoryId != "" && subId != ""
    && found.Some? && FirstIndex(found.value.categories, CategoryWithId(categoryId)).Some?
    && var c := found.value.categories[FirstIndex(found.value.categories, CategoryWithId(categoryId)).value];
       && FirstIndex(c.subs, SubWithId(subId)).Some?
       && !(c.subs[FirstIndex(c.subs, SubWithId(subId)).value].deleted && c.deleted)
  }

  /** toggleDeleteSubCategory: flips one subcategory; restoring under a deleted category is refused. */
  function ToggleSubcategory(found: Option<SuperCategory>, actor: Actor, superId: Id, categoryId: Id, subId: Id,
                             now: int): (r: Result<SuperCategory, Error>)
    ensures r.Ok? <==> SubToggleAllowed(found, actor, superId, categoryId, subId)
    ensures r.Ok? ==>
      var s := found.value;
      var k := FirstIndex(s.categories, CategoryWithId(categoryId)).value;
      var m := FirstIndex(s.categories[k].subs, SubWithId(subId)).value;
      && r.value == s.(categories := r.value.categories)
      && |r.value.categories| == |s.categories|
      && (forall j :: 0 <= j < |s.categories| && j != k ==> r.value.categories[j] == s.categories[j])
      && r.value.categories[k] == s.categories[k].(subs := r.value.categories[k].subs)
      && |r.value.categories[k].subs| == |s.categories[k].subs|
      && (forall n :: 0 <= n < |s.categories[k].subs| && n != m ==>
            r.value.categories[k].subs[n] == s.categories[k].subs[n])
      && r.value.categories[k].subs[m].subId == subId
      && r.value.categories[k].subs[m].deleted == !s.categories[k].subs[m].deleted
      && Stamped(r.value.categories[k].subs[m].deleted, r.value.categories[k].subs[m].deletedBy,
                 r.value.categories[k].subs[m].deletedAt, actor, now)
  {
    if !IsStaff(actor.role) then Err(AccessDenied)
    else if superId == "" || categoryId == "" || subId == "" then Err(MissingField)
    else if found.None? then Err(CategoryNotFound)
    else
      var s := found.value;
      match FirstIndex(s.categories, CategoryWithId(categoryId))
      case None => Err(CategoryNotFound)
      case Some(k) =>
        var c := s.categories[k];
        match FirstIndex(c.subs, SubWithId(subId))
        case None => Err(CategoryNotFound)
        case Some(m) =>
          var sub := c.subs[m];
          if sub.deleted && c.deleted then Err(ParentDeleted)
          else Ok(s.(categories := s.categories[k := c.(subs := c.subs[m := StampSub(sub, !sub.deleted, actor, now)])]))
  }

  /** Both toggles keep every deleted category free of live subcategories. */
  lemma TogglesKeepTreeConsistent(found: Option<SuperCategory>, actor: Actor, superId: Id, categoryId: Id,
                                  subId: Id, now: int)
    requires found.Some? && TreeConsistent(found.value)
    ensures ToggleCategory(found, actor, superId, categoryId, now).Ok? ==>
      TreeConsistent(ToggleCategory(found, actor, superId, categoryId, now).value)
    ensures ToggleSubcategory(found, actor, superId, categoryId, subId, now).Ok? ==>
      TreeConsistent(ToggleSubcategory(found, actor, superId, categoryId, subId, now).value)
  {
    var r := ToggleSubcategory(found, actor, superId, categoryId, subId, now);
    if r.Ok? {
      var s := found.value;
      var k := FirstIndex(s.categories, CategoryWithId(categoryId)).value;
      var m := FirstIndex(s.categories[k].subs, SubWithId(subId)).value;
      assert CategoryConsistent(s.categories[k]);
    }
  }

  /**
    Deleting a category and restoring it again revives every subcategory, also
    those that had been deleted on their own before: the restore does not
    remember them.
  */
  lemma RestoreRevivesAllSubcategories(s: SuperCategory, actor: Actor, categoryId: Id, now1: int, now2: int)
    requires IsStaff(actor.role) && s.superId != "" && categoryId != "" && !s.deleted
    requires FirstIndex(s.categories, CategoryWithId(categoryId)).Some?
    requires !s.categories[FirstIndex(s.categories, CategoryWithId(categoryId)).value].deleted
    ensures var once := ToggleCategory(Some(s), actor, s.superId, categoryId, now1);
      && once.Ok?
      && ToggleCategory(Some(once.value), actor, s.superId, categoryId, now2).Ok?
      && var k := FirstIndex(s.categories, CategoryWithId(categoryId)).value;
         var twice := ToggleCategory(Some(once.value), actor, s.superId, categoryId, now2).value;
         && !twice.categories[k].deleted
         && forall m :: 0 <= m < |twice.categories[k].subs| ==> !twice.categories[k].subs[m].deleted
  {
    var k := FirstIndex(s.categories, CategoryWithId(categoryId)).value;
    var once := ToggleCategory(Some(s), actor, s.superId, categoryId, now1).value;
    FirstIndexIs(once.categories, CategoryWithId(categoryId), k);
  }

  // ---------------------------------------------------------------- products

  /** The `price` of a request: `regular` (None when null or absent) and the tiers (None when not an array). */
  datatype PriceArg = PriceArg(regular: Option<int>, tiers: Option<seq<Tier>>)

  /** A price with a regular amount and at least one discount tier. A regular price of 0 passes. */
  predicate PriceValid(p: PriceArg) {
    p.regular.Some? && p.tiers.Some? && |p.tiers.value| > 0
  }

  /**
    The `variations` of a creation request: absent (or falsy), a list of
    product ids given by whether each one exists, or anything else.
  */
  datatype VariationsArg = NoVariations | VariationIds(found: seq<bool>) | VariationsNotArray

  /**
    The fields of a product-creation request the rules read; "" and 0 stand for
    falsy values. `othersValid` says whether the save-time validators the rules
    do not read accept the document: the category's three names, each
    specification entry's key and value, the payment-type enum, and the
    creator's name, phone and e-mail copied into `addedBy`.
  */
  datatype NewProductRequest = NewProductRequest(
    title: string, description: string, price: Option<PriceArg>, hasCategory: bool, brandName: string,
    thumbnail: string, stock: string, status: Option<string>, maxQuantity: int, variations: VariationsArg,
    othersValid: bool)

  /** Every listed variation product exists. */
  predicate VariationsFound(v: VariationsArg) {
    v.VariationIds? ==> forall i :: 0 <= i < |v.found| ==> v.found[i]
  }

  predicate RequiredPresent(q: NewProductRequest) {
    && q.title != "" && q.description != "" && q.price.Some? && q.hasCategory && q.brandName != ""
    && q.thumbnail != "" && q.stock != "" && q.maxQuantity != 0
  }

  /** The soft-delete flag agrees with the status string. */
  predicate DeletedMatchesStatus(p: Product) {
    p.deleted <==> p.status == "deleted"
  }

  /** Everything createProduct checks, in the handler's order, up to the schema validators of `save`. */
  predicate CreateAllowed(actor: Actor, q: NewProductRequest) {
    && IsStaff(actor.role) && RequiredPresent(q) && !q.variations.VariationsNotArray?
    && PriceValid(q.price.value) && VariationsFound(q.variations)
    && ValidStock(q.stock) && ValidProductStatus(q.status.GetOr("active")) && q.othersValid
  }

  /**
    createProduct: staff only; the required fields, variations as a list, a
    valid price, every variation found, and on save the stock and status enums
    (status defaults to "active") and the other validators. The product is
    created not deleted, whatever status is requested, in the caller's shop.
  */
  function CreateProduct(actor: Actor, q: NewProductRequest, productId: Id): (r: Result<Product, Error>)
    ensures r.Ok? <==> CreateAllowed(actor, q)
    ensures (IsStaff(actor.role) && RequiredPresent(q) && !q.variations.VariationsNotArray?
             && !PriceValid(q.price.value)) ==> r == Err(InvalidPrice)
    ensures (IsStaff(actor.role) && RequiredPresent(q) && !q.variations.VariationsNotArray?
             && PriceValid(q.price.value) && VariationsFound(q.variations) && !q.othersValid) ==> r == Err(ServerError)
    ensures r.Ok? ==>
      && r.value.productId == productId && r.value.addedBy == actor.id && r.value.shopId == actor.shopId
      && r.value.regular == q.price.value.regular.value && r.value.tiers == q.price.value.tiers.value
      && r.value.stock == q.stock && r.value.maxQuantity == q.maxQuantity
      && r.value.status == (if q.status.Some? then q.status.value else "active")
      && !r.value.deleted && r.value.deletedBy.None?
  {
    if !IsStaff(actor.role) then Err(AccessDenied)
    else if !RequiredPresent(q) then Err(MissingField)
    else if q.variations.VariationsNotArray? then Err(VariationsNotList)
    else if !PriceValid(q.price.value) then Err(InvalidPrice)
    else if !VariationsFound(q.variations) then Err(VariationNotFound)
    else
      var status := q.status.GetOr("active");
      if !ValidStock(q.stock) || !ValidProductStatus(status) || !q.othersValid then Err(ServerError)
      else
        var pr := q.price.value;
        Ok(Product(productId, actor.id, pr.regular.value, pr.tiers.value, q.maxQuantity, q.stock, status,
                   false, None, actor.shopId))
  }

  /** A product created with status "deleted" is not marked deleted; any other status keeps the two in step. */
  lemma CreateDeletedStatusNotDeleted(actor: Actor, q: NewProductRequest, productId: Id)
    requires CreateProduct(actor, q, productId).Ok?
    ensures DeletedMatchesStatus(CreateProduct(actor, q, productId).value) <==> q.status != Some("deleted")
  {
  }

  /**
    The body of a product update, which the handler `$set`s as a whole; None
    means the key is absent. Beside the fields the rules read it may carry the
    deletion mark (`deletedBy` given as null is Some(None)), the `_id` of an
    embedded `addedBy` and the `shopId` of a `shop` object.
  */
  datatype ProductUpdate = ProductUpdate(status: Option<string>, price: Option<PriceArg>, stock: Option<string>,
                                         maxQuantity: Option<int>, deleted: Option<bool>,
                                         deletedBy: Option<Option<Id>>, addedBy: Option<Id>,
                                         shop: Option<Option<Id>>)

  /** An update body carrying only the fields the rules read. */
  function FieldsUpdate(status: Option<string>, price: Option<PriceArg>, stock: Option<string>,
                        maxQuantity: Option<int>): ProductUpdate {
    ProductUpdate(status, price, stock, maxQuantity, None, None, None, None)
  }

  /**
    What a successful update leaves: the id kept; a "deleted" status
    soft-deletes by the caller, any other non-empty status restores, and an
    absent or empty one leaves the deletion mark to the body's own keys or the
    stored values; every other key given replaces the stored field, the owner
    and the shop included.
  */
  predicate UpdateApplied(p: Product, u: ProductUpdate, actor: Actor, q: Product)
    requires u.price.Some? ==> PriceValid(u.price.value)
  {
    && q.productId == p.productId
    && q.addedBy == u.addedBy.GetOr(p.addedBy) && q.shopId == u.shop.GetOr(p.shopId)
    && (u.status == Some("deleted") ==> q.deleted && q.deletedBy == Some(actor.id))
    && ((u.status.Some? && u.status.value != "" && u.status.value != "deleted")
          ==> !q.deleted && q.deletedBy.None?)
    && (u.status.None? || u.status == Some("") ==>
          q.deleted == u.deleted.GetOr(p.deleted) && q.deletedBy == u.deletedBy.GetOr(p.deletedBy))
    && q.status == u.status.GetOr(p.status) && q.stock == u.stock.GetOr(p.stock)
    && q.maxQuantity == u.maxQuantity.GetOr(p.maxQuantity)
    && (u.price.Some? ==> q.regular == u.price.value.regular.value && q.tiers == u.price.value.tiers.value)
    && (u.price.None? ==> q.regular == p.regular && q.tiers == p.tiers)
  }

  /**
    The `$set` of updateProduct. The status rule rewrites the body's deletion
    keys before the write: status "deleted" marks the product deleted by the
    caller, any other non-empty status restores it. No schema validator runs.
  */
  function ApplyUpdate(p: Product, u: ProductUpdate, actor: Actor): (r: Product)
    requires u.price.Some? ==> PriceValid(u.price.value)
    ensures UpdateApplied(p, u, actor, r)
  {
    var marks := if u.status == Some("deleted") then (Some(true), Some(Some(actor.id)))
                 else if u.status.Some? && u.status.value != "" then (Some(false), Some(None))
                 else (u.deleted, u.deletedBy);
    var p1 := p.(deleted := marks.0.GetOr(p.deleted), deletedBy := marks.1.GetOr(p.deletedBy),
                 addedBy := u.addedBy.GetOr(p.addedBy), shopId := u.shop.GetOr(p.shopId));
    var p2 := if u.status.Some? then p1.(status := u.status.value) else p1;
    var p3 := if u.price.Some? then p2.(regular := u.price.value.regular.value, tiers := u.price.value.tiers.value)
              else p2;
    var p4 := if u.stock.Some? then p3.(stock := u.stock.value) else p3;
    if u.maxQuantity.Some? then p4.(maxQuantity := u.maxQuantity.value) else p4
  }

  /** The ownership test as written: it compares the role with "Shop-user", which no stored role equals. */
  predicate OwnershipCheckFires(actor: Actor, p: Product) {
    RoleName(actor.role) == "Shop-user" && p.addedBy != actor.id
  }

  /** updateProduct as written: staff only, the product must exist, a given price must be valid. */
  function UpdateProductAsWritten(found: Option<Product>, actor: Actor, u: ProductUpdate): (r: Result<Product, Error>)
    ensures r.Ok? <==> IsStaff(actor.role) && found.Some? && (u.price.Some? ==> PriceValid(u.price.value))
    ensures r.Ok? ==> UpdateApplied(found.value, u, actor, r.value)
  {
    if !IsStaff(actor.role) then Err(AccessDenied)
    else if found.None? then Err(ProductNotFound)
    else if OwnershipCheckFires(actor, found.value) then Err(NotAuthorized)
    else if u.price.Some? && !PriceValid(u.price.value) then Err(InvalidPrice)
    else Ok(ApplyUpdate(found.value, u, actor))
  }

  /** As written, a shop-user may update a product another account added. */
  lemma UpdateAsWrittenIgnoresOwner(p: Product, actor: Actor, u: ProductUpdate)
    requires actor.role == ShopUser && p.addedBy != actor.id && u.price.None?
    ensures UpdateProductAsWritten(Some(p), actor, u).Ok?
    ensures UpdateProduct(Some(p), actor, u) == Err(NotAuthorized)
  {
  }

  /** What the corrected updateProduct admits: staff, an existing product a shop-user added itself, a valid price. */
  predicate UpdateAllowed(found: Option<Product>, actor: Actor, u: ProductUpdate) {
    && IsStaff(actor.role) && found.Some?
    && (actor.role == ShopUser ==> found.value.addedBy == actor.id)
    && (u.price.Some? ==> PriceValid(u.price.value))
  }

  /**
    updateProduct with the ownership test on the stored "shop-user" role: a
    shop-user may only update products it added.
  */
  function UpdateProduct(found: Option<Product>, actor: Actor, u: ProductUpdate): (r: Result<Product, Error>)
    ensures r.Ok? <==> UpdateAllowed(found, actor, u)
    ensures r.Ok? ==> UpdateApplied(found.value, u, actor, r.value)
  {
    if !IsStaff(actor.role) then Err(AccessDenied)
    else if found.None? then Err(ProductNotFound)
    else if actor.role == ShopUser && found.value.addedBy != actor.id then Err(NotAuthorized)
    else if u.price.Some? && !PriceValid(u.price.value) then Err(InvalidPrice)
    else Ok(ApplyUpdate(found.value, u, actor))
  }

  /** An update that names a non-empty status leaves the deleted flag in step with it. */
  lemma UpdateKeepsDeletedInStep(found: Option<Product>, actor: Actor, u: ProductUpdate)
    requires UpdateProduct(found, actor, u).Ok?
    requires u.status.Some? && u.status.value != ""
    ensures DeletedMatchesStatus(UpdateProduct(found, actor, u).value)
  {
  }

  /**
    The deletion keys of the body are written as given when no status is:
    `{deleted: false}` revives a product whose status stays "deleted".
  */
  lemma DeletedKeyWithoutStatus(p: Product, actor: Actor)
    requires actor.role == Admin && p.status == "deleted" && p.deleted
    ensures var u := ProductUpdate(None, None, None, None, Some(false), None, None, None);
      && UpdateProduct(Some(p), actor, u).Ok?
      && !UpdateProduct(Some(p), actor, u).value.deleted
      && !DeletedMatchesStatus(UpdateProduct(Some(p), actor, u).value)
  {
  }

  /**
    A body carrying `addedBy` hands the product to another account, and the
    shop-user who owned it is refused from then on.
  */
  lemma UpdateCanReassignOwner(p: Product, actor: Actor, other: Id)
    requires actor.role == ShopUser && p.addedBy == actor.id && other != actor.id
    ensures var u := ProductUpdate(None, None, None, None, None, None, Some(other), None);
      && UpdateProduct(Some(p), actor, u).Ok?
      && UpdateProduct(Some(p), actor, u).value.addedBy == other
      && UpdateProduct(Some(UpdateProduct(Some(p), actor, u).value), actor, u) == Err(NotAuthorized)
  {
  }

  /** Updates bypass the schema: an unknown stock or status string is stored as given. */
  lemma UpdateSkipsValidation(p: Product, actor: Actor)
    requires actor.role == Admin
    ensures UpdateProduct(Some(p), actor, FieldsUpdate(Some("archived"), None, Some("plenty"), None)).Ok?
    ensures var r := UpdateProduct(Some(p), actor, FieldsUpdate(Some("archived"), None, Some("plenty"), None)).value;
      !ValidStock(r.stock) && !ValidProductStatus(r.status)
  {
  }
}
