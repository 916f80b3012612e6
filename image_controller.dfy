/**
 * ImageController: upload, list, fetch and delete of a product's images.
 * Each handler's status is a function of the tables before the request and
 * of whether the storage backend accepts the write; a successful upload or
 * delete changes the images table and the backend together.
 */
module ImageControllers {
  import opened Common
  import opened UserEntity
  import opened ProductEntity
  import opened Repositories
  import opened UserServices
  import opened ProductServices
  import opened StorageKeys
  import opened ImageServices

  /** The Location of a created image: /v1/product/{productId}/image/{imageId}. */
  function ImageLocation(productId: nat, imageId: nat): string
  {
    "/v1/product/" + NatToString(productId) + "/image/" + NatToString(imageId)
  }

  /** Locations of distinct images of one product are distinct. */
  lemma ImageLocationInjective(productId: nat, a: nat, b: nat)
    requires ImageLocation(productId, a) == ImageLocation(productId, b)
    ensures a == b
  {
    var prefix := "/v1/product/" + NatToString(productId) + "/image/";
    assert ImageLocation(productId, a) == prefix + NatToString(a);
    assert ImageLocation(productId, b) == prefix + NatToString(b);
    PrefixCancels(prefix, NatToString(a), NatToString(b));
    NatToStringInjective(a, b);
  }

  /**
   * The checks upload and delete share, in order: 401 without a principal,
   * 403 for an unverified caller, 404 for a missing product, 403 for a
   * caller who does not own it.
   */
  function ImageAccessStatus(products: map<nat, ProductRow>, users: map<nat, UserRow>, auth: Option<Auth>, pid: nat): (r: Status)
    requires UsernamesUnique(users) && OwnersExist(products, users)
    ensures r in {Ok, Unauthorized, Forbidden, NotFound}
    ensures r == Unauthorized <==> auth.None?
    ensures r == NotFound <==> auth.Some? && CallerVerified(users, auth) && pid !in products
    ensures r == Ok <==> CallerVerified(users, auth) && pid in products && OwnedBy(products, users, pid, auth.value.name)
  {
    if auth.None? then Unauthorized
    else if !CallerVerified(users, auth) then Forbidden
    else if pid !in products then NotFound
    else if !OwnedBy(products, users, pid, auth.value.name) then Forbidden
    else Ok
  }

  /** POST .../image: the access checks, then 400 for an invalid file, 500 when the backend fails, else 201. */
  function UploadStatus(products: map<nat, ProductRow>, users: map<nat, UserRow>, auth: Option<Auth>, pid: nat,
                        file: MultipartFile, accepts: bool): (r: Status)
    requires UsernamesUnique(users) && OwnersExist(products, users)
    ensures r in {Created, Unauthorized, Forbidden, NotFound, BadRequest, InternalServerError}
    ensures ImageAccessStatus(products, users, auth, pid) != Ok ==> r == ImageAccessStatus(products, users, auth, pid)
    ensures r == Created <==> ImageAccessStatus(products, users, auth, pid) == Ok && IsValidImageFile(Some(file)) && accepts
  {
    var access := ImageAccessStatus(products, users, auth, pid);
    if access != Ok then access
    else if !IsValidImageFile(Some(file)) then BadRequest
    else if !accepts then InternalServerError
    else Created
  }

  /** DELETE .../image/{imageId}: the access checks, then 404 for an image not of that product, 500 when the backend fails, else 204. */
  function DeleteImageStatus(products: map<nat, ProductRow>, users: map<nat, UserRow>, images: map<nat, Image>,
                             auth: Option<Auth>, pid: nat, imageId: nat, accepts: bool): (r: Status)
    requires UsernamesUnique(users) && OwnersExist(products, users)
    ensures r in {NoContent, Unauthorized, Forbidden, NotFound, InternalServerError}
    ensures ImageAccessStatus(products, users, auth, pid) != Ok ==> r == ImageAccessStatus(products, users, auth, pid)
    ensures r == NoContent <==> ImageAccessStatus(products, users, auth, pid) == Ok && ImageOf(images, imageId, pid).Some? && accepts
  {
    var access := ImageAccessStatus(products, users, auth, pid);
    if access != Ok then access
    else if ImageOf(images, imageId, pid).None? then NotFound
    else if !accepts then InternalServerError
    else NoContent
  }

  /** A deleted image is gone: deleting it again gives 404, whatever the backend does. */
  lemma SecondDeleteNotFound(products: map<nat, ProductRow>, users: map<nat, UserRow>, images: map<nat, Image>,
                             auth: Option<Auth>, pid: nat, imageId: nat, accepts: bool, acceptsAgain: bool)
    requires UsernamesUnique(users) && OwnersExist(products, users)
    requires DeleteImageStatus(products, users, images, auth, pid, imageId, accepts) == NoContent
    ensures DeleteImageStatus(products, users, images - {imageId}, auth, pid, imageId, acceptsAgain) == NotFound
  {
  }

  /** An uploaded image is found by both lookups of its product, and by no other product's. */
  lemma UploadedImageIsListed(images: map<nat, Image>, id: nat, img: Image, otherPid: nat)
    requires otherPid != img.productId
    ensures ImageOf(images[id := img], id, img.productId) == Some(img)
    ensures id in ImagesOf(images[id := img], img.productId)
    ensures ImageOf(images[id := img], id, otherPid) == None
  {
  }

  /** ImageController, over the products and users tables and ImageService. */
  class ImageController {
    const products: ProductRepository
    const users: UserRepository
    const imageService: ImageService
    const productService: ProductService
    const userService: UserService

    constructor (products: ProductRepository, users: UserRepository, imageService: ImageService)
      ensures this.products == products && this.users == users && this.imageService == imageService && Wired()
    {
      this.products := products;
      this.users := users;
      this.imageService := imageService;
      productService := new ProductService(products);
      userService := new UserService(users);
    }

    predicate Wired()
    {
      productService.products == products && userService.users == users
    }

    ghost predicate Valid()
      reads products, users, imageService.images
    {
      Wired() && products.Valid() && users.Valid() && OwnersExist(products.rows, users.rows)
      && imageService.images.Valid()
    }

    /**
     * POST /v1/product/{pid}/image: on 201 the file is in the backend under
     * the owner's and the product's key, one record points to it and the
     * Location names it; on any other status neither changes.
     */
    method UploadImage(pid: nat, file: MultipartFile, auth: Option<Auth>, uuid: string, now: Instant, fault: bool)
      returns (status: Status, location: Option<string>)
      modifies imageService.images, imageService.s3, imageService.local
      requires Valid()
      ensures Valid()
      ensures status == UploadStatus(products.rows, users.rows, auth, pid, file, imageService.BackendAccepts(fault))
      ensures imageService.OtherBackendUnchanged()
      ensures status != Created ==>
        && imageService.images.rows == old(imageService.images.rows)
        && imageService.Stored() == old(imageService.Stored())
        && location == None
      ensures status == Created ==>
        var key := ObjectKey(products.rows[pid].ownerId, pid, uuid, file.originalName);
        var id := old(imageService.images.nextId);
        && imageService.images.rows == old(imageService.images.rows)[id := Image(file.originalName.value, now, key, pid)]
        && imageService.Stored() == old(imageService.Stored())[key := file.content]
        && location == Some(ImageLocation(pid, id))
    {
      if auth.None? {
        return Unauthorized, None;
      }
      var verified := userService.IsEmailVerified(auth);
      if !verified {
        return Forbidden, None;
      }
      var product := productService.FindById(pid, users);
      if product == null {
        return NotFound, None;
      }
      if !productService.IsOwner(product, auth.value.name) {
        return Forbidden, None;
      }
      if !IsValidImageFile(Some(file)) {
        return BadRequest, None;
      }
      var saved := imageService.UploadImage(file, product, product.owner.id.value, uuid, now, fault);
      if saved.None? {
        return InternalServerError, None;
      }
      return Created, Some(ImageLocation(pid, saved.value));
    }

    /** GET /v1/product/{pid}/image: 404 for a missing product, else 200 with the images of that product. */
    method GetAllImages(pid: nat) returns (status: Status, list: Option<map<nat, Image>>)
      requires Valid()
      ensures status in {Ok, NotFound}
      ensures status == NotFound <==> pid !in products.rows
      ensures list == if pid in products.rows then Some(ImagesOf(imageService.images.rows, pid)) else None
    {
      var product := productService.FindById(pid, users);
      if product == null {
        return NotFound, None;
      }
      return Ok, Some(ImagesOf(imageService.images.rows, pid));
    }

    /** GET /v1/product/{pid}/image/{imageId}: 404 for a missing product or an image not of it, else 200 with the image. */
    method GetImageById(pid: nat, imageId: nat) returns (status: Status, image: Option<Image>)
      requires Valid()
      ensures status in {Ok, NotFound}
      ensures status == Ok <==> pid in products.rows && imageId in imageService.images.rows
                                && imageService.images.rows[imageId].productId == pid
      ensures image == if status == Ok then Some(imageService.images.rows[imageId]) else None
    {
      var product := productService.FindById(pid, users);
      if product == null {
        return NotFound, None;
      }
      var found := ImageOf(imageService.images.rows, imageId, pid);
      if found.None? {
        return NotFound, None;
      }
      return Ok, found;
    }

    /**
     * DELETE /v1/product/{pid}/image/{imageId}: on 204 the record and its
     * stored object are both gone; on any other status neither changes.
     */
    method DeleteImage(pid: nat, imageId: nat, auth: Option<Auth>, fault: bool) returns (status: Status)
      modifies imageService.images`rows, imageService.s3, imageService.local
      requires Valid()
      ensures Valid()
      ensures status == DeleteImageStatus(products.rows, users.rows, old(imageService.images.rows), auth, pid, imageId,
                                          imageService.BackendAccepts(fault))
      ensures imageService.OtherBackendUnchanged()
      ensures status != NoContent ==>
        imageService.images.rows == old(imageService.images.rows) && imageService.Stored() == old(imageService.Stored())
      ensures status == NoContent ==>
        && imageService.images.rows == old(imageService.images.rows) - {imageId}
        && imageService.Stored() == old(imageService.Stored()) - {old(imageService.images.rows[imageId].path)}
    {
      if auth.None? {
        return Unauthorized;
      }
      var verified := userService.IsEmailVerified(auth);
      if !verified {
        return Forbidden;
      }
      var product := productService.FindById(pid, users);
      if product == null {
        return NotFound;
      }
      if !productService.IsOwner(product, auth.value.name) {
        return Forbidden;
      }
      var image := ImageOf(imageService.images.rows, imageId, pid);
      if image.None? {
        return NotFound;
      }
      var ok := imageService.DeleteImage(imageId, fault);
      if !ok {
        return InternalServerError;
      }
      return NoContent;
    }
  }
}
