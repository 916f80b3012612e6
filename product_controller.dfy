/**
 * ProductController: create, read, full update (PUT), partial update (PATCH)
 * and delete of products. Each handler's status is a function of the tables
 * before the request, and each successful write is a function of the stored
 * row and the request body.
 */
module ProductControllers {
  import opened Common
  import opened UserEntity
  import opened ProductEntity
  import opened Repositories
  import opened ProductServices
  import opened UserServices

  /** The Location of a created product. */
  function ProductLocation(id: nat): string
  {
    "/v1/product/" + NatToString(id)
  }

  /**
   * POST /v1/product: 400 for an invalid body or a taken SKU, and 400 when the
   * caller has no stored account (the owner column is not nullable); else 201.
   */
  function CreateProductStatus(products: map<nat, ProductRow>, users: map<nat, UserRow>, auth: Auth, body: ProductInput): (r: Status)
    ensures r in {Created, BadRequest}
    ensures r == Created <==> ValidProductInput(body) && !HasSku(products, body.sku.value) && HasUsername(users, auth.name)
  {
    if !ValidProductInput(body) then BadRequest
    else if HasSku(products, body.sku.value) then BadRequest
    else if !HasUsername(users, auth.name) then BadRequest
    else Created
  }

  /** The row a created product is stored as: the body's fields, owned by the caller, stamped now. */
  function CreatedRow(body: ProductInput, ownerId: nat, now: Instant): (r: ProductRow)
    requires ValidProductInput(body)
    ensures r.ownerId == ownerId && r.dateAdded == now == r.dateLastUpdated
    ensures r.sku == body.sku.value && QuantityInRange(r.quantity)
    ensures ValidProductRow(r)
  {
    ProductRow(body.name.value, body.description.value, body.sku.value, body.manufacturer.value,
               body.quantity.value, now, now, ownerId)
  }

  /** The check shared by PUT, PATCH and DELETE: 404 for a missing product before 403 for a non-owner. */
  function OwnerAccessStatus(products: map<nat, ProductRow>, users: map<nat, UserRow>, pid: nat, auth: Auth): (r: Status)
    requires OwnersExist(products, users)
    ensures r in {Ok, NotFound, Forbidden}
    ensures r == NotFound <==> pid !in products
    ensures r == Ok <==> pid in products && OwnedBy(products, users, pid, auth.name)
  {
    if pid !in products then NotFound
    else if !OwnedBy(products, users, pid, auth.name) then Forbidden
    else Ok
  }

  /** A SKU change is refused only when the new SKU differs from the product's own and is in use. */
  predicate SkuConflict(products: map<nat, ProductRow>, pid: nat, sku: string)
    requires pid in products
  {
    products[pid].sku != sku && HasSku(products, sku)
  }

  /** PUT: 400 for an invalid body (checked first), then the owner check, then 400 for a SKU conflict; else 204. */
  function PutStatus(products: map<nat, ProductRow>, users: map<nat, UserRow>, pid: nat, auth: Auth, body: ProductInput): (r: Status)
    requires OwnersExist(products, users)
    ensures r in {NoContent, BadRequest, NotFound, Forbidden}
    ensures ValidProductInput(body) && OwnerAccessStatus(products, users, pid, auth) != Ok ==> r == OwnerAccessStatus(products, users, pid, auth)
    ensures r == NoContent <==> ValidProductInput(body) && OwnerAccessStatus(products, users, pid, auth) == Ok && !SkuConflict(products, pid, body.sku.value)
  {
    if !ValidProductInput(body) then BadRequest
    else
      var access := OwnerAccessStatus(products, users, pid, auth);
      if access != Ok then access
      else if SkuConflict(products, pid, body.sku.value) then BadRequest
      else NoContent
  }

  /** The product as PUT leaves it: all five fields replaced, owner and dates kept. */
  function PutRow(stored: ProductRow, body: ProductInput): (r: ProductRow)
    requires ValidProductInput(body)
    ensures r.ownerId == stored.ownerId && r.dateAdded == stored.dateAdded && r.dateLastUpdated == stored.dateLastUpdated
    ensures r.name == body.name.value && r.description == body.description.value && r.sku == body.sku.value
    ensures r.manufacturer == body.manufacturer.value && r.quantity == body.quantity.value
    ensures ValidProductRow(r)
  {
    stored.(name := body.name.value, description := body.description.value, sku := body.sku.value,
            manufacturer := body.manufacturer.value, quantity := body.quantity.value)
  }

  /** PATCH: the owner check, then 400 for an out-of-range quantity, then 400 for a SKU conflict; else 204. */
  function PatchStatus(products: map<nat, ProductRow>, users: map<nat, UserRow>, pid: nat, auth: Auth, body: ProductInput): (r: Status)
    requires OwnersExist(products, users)
    ensures r in {NoContent, BadRequest, NotFound, Forbidden}
    ensures OwnerAccessStatus(products, users, pid, auth) != Ok ==> r == OwnerAccessStatus(products, users, pid, auth)
    ensures r == NoContent <==>
      && OwnerAccessStatus(products, users, pid, auth) == Ok
      && (body.quantity.Some? ==> QuantityInRange(body.quantity.value))
      && (body.sku.Some? ==> !SkuConflict(products, pid, body.sku.value))
  {
    var access := OwnerAccessStatus(products, users, pid, auth);
    if access != Ok then access
    else if body.quantity.Some? && !QuantityInRange(body.quantity.value) then BadRequest
    else if body.sku.Some? && SkuConflict(products, pid, body.sku.value) then BadRequest
    else NoContent
  }

  /** The product as PATCH leaves it: each present field replaced, each absent one kept. */
  function PatchRow(stored: ProductRow, body: ProductInput): (r: ProductRow)
    ensures r.ownerId == stored.ownerId && r.dateAdded == stored.dateAdded && r.dateLastUpdated == stored.dateLastUpdated
    ensures r.name == body.name.GetOr(stored.name) && r.description == body.description.GetOr(stored.description)
    ensures r.sku == body.sku.GetOr(stored.sku) && r.manufacturer == body.manufacturer.GetOr(stored.manufacturer)
    ensures r.quantity == body.quantity.GetOr(stored.quantity)
  {
    stored.(name := body.name.GetOr(stored.name),
            description := body.description.GetOr(stored.description),
            sku := body.sku.GetOr(stored.sku),
            manufacturer := body.manufacturer.GetOr(stored.manufacturer),
            quantity := body.quantity.GetOr(stored.quantity))
  }

  /** A PATCH carrying a full valid body is a PUT: the same status and the same stored row. */
  lemma FullPatchIsPut(products: map<nat, ProductRow>, users: map<nat, UserRow>, pid: nat, auth: Auth, body: ProductInput)
    requires OwnersExist(products, users) && ValidProductInput(body)
    ensures PatchStatus(products, users, pid, auth, body) == PutStatus(products, users, pid, auth, body)
    ensures pid in products ==> PatchRow(products[pid], body) == PutRow(products[pid], body)
  {
  }

  /** Sending the same PATCH twice leaves the row as the first one did. */
  lemma PatchIsIdempotent(stored: ProductRow, body: ProductInput)
    ensures PatchRow(PatchRow(stored, body), body) == PatchRow(stored, body)
  {
  }

  /**
   * DELETE: the owner check, then 400 while images still refer to the product
   * (their non-nullable product_id foreign key rejects the delete); else 204.
   */
  function DeleteStatus(products: map<nat, ProductRow>, users: map<nat, UserRow>, images: map<nat, Image>, pid: nat, auth: Auth): (r: Status)
    requires OwnersExist(products, users)
    ensures r in {NoContent, BadRequest, NotFound, Forbidden}
    ensures OwnerAccessStatus(products, users, pid, auth) != Ok ==> r == OwnerAccessStatus(products, users, pid, auth)
    ensures r == NoContent <==>
      OwnerAccessStatus(products, users, pid, auth) == Ok && !exists id :: id in images && images[id].productId == pid
  {
    var access := OwnerAccessStatus(products, users, pid, auth);
    if access != Ok then access
    else if ImagesOf(images, pid) != map[] then BadRequest
    else NoContent
  }

  /** A delete that DeleteStatus allows keeps every image attached to a stored product. */
  lemma DeleteKeepsImagesAttached(products: map<nat, ProductRow>, users: map<nat, UserRow>, images: map<nat, Image>, pid: nat, auth: Auth)
    requires OwnersExist(products, users) && ImagesHaveProducts(images, products)
    requires DeleteStatus(products, users, images, pid, auth) == NoContent
    ensures ImagesHaveProducts(images, products - {pid})
  {
    forall id | id in images
      ensures images[id].productId in products - {pid}
    {
      assert images[id].productId != pid;
    }
  }

  /**
   * An owner cannot delete a product that has an image, and once its images
   * are deleted the product can be: the images must go first.
   */
  lemma ImagesMustBeDeletedFirst(products: map<nat, ProductRow>, users: map<nat, UserRow>, images: map<nat, Image>, pid: nat, auth: Auth, imageId: nat)
    requires OwnersExist(products, users)
    requires pid in products && OwnedBy(products, users, pid, auth.name)
    requires imageId in images && images[imageId].productId == pid
    ensures DeleteStatus(products, users, images, pid, auth) == BadRequest
    ensures DeleteStatus(products, users, images - ImagesOf(images, pid).Keys, pid, auth) == NoContent
  {
    var rest := images - ImagesOf(images, pid).Keys;
    forall id | id in rest
      ensures rest[id].productId != pid
    {
      assert id !in ImagesOf(images, pid);
    }
  }

  /** A PATCH with no fields writes nothing: the stored row, dateLastUpdated included, is unchanged. */
  lemma EmptyPatchIsNoOp(stored: ProductRow, now: Instant)
    ensures MergedProduct(stored, PatchRow(stored, ProductInput(None, None, None, None, None)), now) == stored
  {
  }

  /** An owner's PUT that keeps the product's own SKU is not a conflict, however it is spelt elsewhere. */
  lemma KeepingOwnSkuIsAllowed(products: map<nat, ProductRow>, users: map<nat, UserRow>, pid: nat, auth: Auth, body: ProductInput)
    requires OwnersExist(products, users) && ValidProductInput(body)
    requires pid in products && OwnedBy(products, users, pid, auth.name) && body.sku == Some(products[pid].sku)
    ensures PutStatus(products, users, pid, auth, body) == NoContent
  {
  }

  /** A write that passed the SKU check keeps the SKUs unique. */
  lemma SkuCheckKeepsSkusUnique(products: map<nat, ProductRow>, pid: nat, row: ProductRow)
    requires SkusUnique(products) && pid in products
    requires !SkuConflict(products, pid, row.sku)
    ensures SkusUnique(products[pid := row])
  {
    var updated := products[pid := row];
    forall a, b | a in updated && b in updated && updated[a].sku == updated[b].sku
      ensures a == b
    {
      if a != pid && b != pid {
        assert updated[a] == products[a] && updated[b] == products[b];
      }
    }
  }

  /** The five setters of PUT: every field of the body is copied onto the loaded product. */
  method ApplyPut(product: Product, body: ProductInput)
    modifies product`name, product`description, product`sku, product`manufacturer, product`quantity
    requires product.Storable() && ValidProductInput(body)
    ensures product.Storable() && product.Row() == PutRow(old(product.Row()), body)
  {
    product.SetName(body.name.value);
    product.SetDescription(body.description.value);
    product.SetSku(body.sku.value);
    product.SetManufacturer(body.manufacturer.value);
    product.SetQuantity(body.quantity.value);
  }

  /** The five guarded setters of PATCH: each present field is copied onto the loaded product. */
  method ApplyPatch(product: Product, body: ProductInput)
    modifies product`name, product`description, product`sku, product`manufacturer, product`quantity
    requires product.Storable()
    ensures product.Storable() && product.Row() == PatchRow(old(product.Row()), body)
  {
    if body.name.Some? {
      product.SetName(body.name.value);
    }
    if body.description.Some? {
      product.SetDescription(body.description.value);
    }
    if body.sku.Some? {
      product.SetSku(body.sku.value);
    }
    if body.manufacturer.Some? {
      product.SetManufacturer(body.manufacturer.value);
    }
    if body.quantity.Some? {
      product.SetQuantity(body.quantity.value);
    }
  }

  /**
   * ProductController, over the products table, the users table read through
   * UserService, and the images table whose foreign key guards deletion.
   */
  class ProductController {
    const products: ProductRepository
    const users: UserRepository
    const images: ImageRepository
    const userService: UserService

    constructor (products: ProductRepository, users: UserRepository, images: ImageRepository)
      ensures this.products == products && this.users == users && this.images == images && Wired()
    {
      this.products := products;
      this.users := users;
      this.images := images;
      userService := new UserService(users);
    }

    predicate Wired()
    {
      userService.users == users
    }

    ghost predicate Valid()
      reads products, users, images
    {
      Wired() && products.Valid() && users.Valid() && images.Valid()
      && OwnersExist(products.rows, users.rows) && ImagesHaveProducts(images.rows, products.rows)
    }

    /** POST /v1/product: on 201 one row owned by the caller is added and the Location names it; otherwise nothing changes. */
    method CreateProduct(body: ProductInput, auth: Auth, now: Instant) returns (status: Status, location: Option<string>)
      modifies products
      requires Valid()
      ensures Valid()
      ensures status == CreateProductStatus(old(products.rows), users.rows, auth, body)
      ensures status != Created ==> products.rows == old(products.rows) && location == None
      ensures status == Created ==>
        && products.rows == old(products.rows)[old(products.nextId) := CreatedRow(body, UserIdByName(users.rows, auth.name), now)]
        && location == Some(ProductLocation(old(products.nextId)))
    {
      if !ValidProductInput(body) {
        return BadRequest, None;
      }
      if HasSku(products.rows, body.sku.value) {
        return BadRequest, None;
      }
      var user := userService.users.FindByUsername(auth.name);
      var product := new Product.FromBody(body.name.value, body.description.value, body.sku.value,
                                          body.manufacturer.value, body.quantity.value);
      product.SetOwner(user);
      if user == null {
        // The save is rejected by the non-null owner column: an integrity violation, mapped to 400.
        return BadRequest, None;
      }
      products.Insert(product, now);
      return Created, Some(ProductLocation(product.id.value));
    }

    /** GET /v1/product/{pid}: the stored product's view with 200, or 404 exactly when it is missing. */
    method GetProduct(pid: nat) returns (status: Status, view: Option<ProductView>)
      requires Valid()
      ensures status in {Ok, NotFound}
      ensures status == NotFound <==> pid !in products.rows
      ensures view == if pid in products.rows then Some(ViewOfProduct(pid, products.rows[pid])) else None
    {
      var product := products.FindById(pid, users);
      if product == null {
        return NotFound, None;
      }
      return Ok, Some(ViewOfProduct(pid, product.Row()));
    }

    /** PUT /v1/product/{pid}: on 204 the row takes PutRow through the merge; otherwise nothing changes. */
    method UpdateProductPut(pid: nat, body: ProductInput, auth: Auth, now: Instant) returns (status: Status)
      modifies products`rows
      requires Valid()
      ensures Valid()
      ensures status == PutStatus(old(products.rows), users.rows, pid, auth, body)
      ensures status != NoContent ==> products.rows == old(products.rows)
      ensures status == NoContent ==>
        products.rows == old(products.rows)[pid := MergedProduct(old(products.rows[pid]), PutRow(old(products.rows[pid]), body), now)]
    {
      if !ValidProductInput(body) {
        return BadRequest;
      }
      var product := products.FindById(pid, users);
      if product == null {
        return NotFound;
      }
      if product.owner.username != auth.name {
        return Forbidden;
      }
      if product.sku != body.sku.value && HasSku(products.rows, body.sku.value) {
        return BadRequest;
      }
      ApplyPut(product, body);
      products.Update(product, now);
      return NoContent;
    }

    /** PATCH /v1/product/{pid}: on 204 the row takes PatchRow through the merge; otherwise nothing changes. */
    method UpdateProductPatch(pid: nat, body: ProductInput, auth: Auth, now: Instant) returns (status: Status)
      modifies products`rows
      requires Valid()
      ensures Valid()
      ensures status == PatchStatus(old(products.rows), users.rows, pid, auth, body)
      ensures status != NoContent ==> products.rows == old(products.rows)
      ensures status == NoContent ==>
        products.rows == old(products.rows)[pid := MergedProduct(old(products.rows[pid]), PatchRow(old(products.rows[pid]), body), now)]
    {
      var product := products.FindById(pid, users);
      if product == null {
        return NotFound;
      }
      if product.owner.username != auth.name {
        return Forbidden;
      }
      if body.quantity.Some? && (body.quantity.value < 0 || body.quantity.value > 100) {
        return BadRequest;
      }
      if body.sku.Some? && product.sku != body.sku.value && HasSku(products.rows, body.sku.value) {
        return BadRequest;
      }
      ApplyPatch(product, body);
      products.Update(product, now);
      return NoContent;
    }

    /**
     * DELETE /v1/product/{pid}: on 204 only that row is removed; otherwise,
     * including the 400 for a product that still has images, nothing changes.
     */
    method DeleteProduct(pid: nat, auth: Auth) returns (status: Status)
      modifies products`rows
      requires Valid()
      ensures Valid()
      ensures status == DeleteStatus(old(products.rows), users.rows, images.rows, pid, auth)
      ensures status != NoContent ==> products.rows == old(products.rows)
      ensures status == NoContent ==> products.rows == old(products.rows) - {pid}
    {
      var product := products.FindById(pid, users);
      if product == null {
        return NotFound;
      }
      if product.owner.username != auth.name {
        return Forbidden;
      }
      if ImagesOf(images.rows, pid) != map[] {
        // The delete is rejected by the product_id foreign key of the images
        // still referring to the product: an integrity violation, mapped to 400.
        return BadRequest;
      }
      DeleteKeepsImagesAttached(products.rows, users.rows, images.rows, pid, auth);
      products.Delete(pid);
      return NoContent;
    }
  }
}
