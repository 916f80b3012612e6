/**
 * ProductService: the product operations the image endpoints use, over the
 * products table, and the ownership test.
 */
module ProductServices {
  import opened Common
  import opened UserEntity
  import opened ProductEntity
  import opened Repositories

  /** The stored product pid belongs to the user called name (through its owner_user_id). */
  predicate OwnedBy(products: map<nat, ProductRow>, users: map<nat, UserRow>, pid: nat, name: string)
    requires pid in products && OwnersExist(products, users)
  {
    users[products[pid].ownerId].username == name
  }

  class ProductService {
    const products: ProductRepository

    constructor (products: ProductRepository)
      ensures this.products == products
    {
      this.products := products;
    }

    /** createProduct: sets the owner, then saves; the stored row's owner is that user. */
    method CreateProduct(p: Product, owner: User, now: Instant)
      modifies products, p`owner, p`id, p`dateAdded, p`dateLastUpdated
      requires products.Valid() && p.id == None && !HasSku(products.rows, p.sku) && owner.id.Some?
      ensures products.Valid() && p.owner == owner && p.id == Some(old(products.nextId))
      ensures products.rows == old(products.rows)[old(products.nextId) :=
        ProductRow(p.name, p.description, p.sku, p.manufacturer, p.quantity, now, now, owner.id.value)]
    {
      p.SetOwner(owner);
      products.Insert(p, now);
    }

    /** findById: the loaded product, or null exactly when no product has that id. */
    method FindById(id: nat, users: UserRepository) returns (p: Product?)
      requires OwnersExist(products.rows, users.rows)
      ensures p == null <==> id !in products.rows
      ensures p != null ==> fresh(p) && fresh(p.owner) && p.id == Some(id) && p.Storable() && p.Row() == products.rows[id]
      ensures p != null ==> p.owner.Stamped() && p.owner.Row() == users.rows[products.rows[id].ownerId]
    {
      p := products.FindById(id, users);
    }

    /** updateProduct: the dirty-checked save. */
    method UpdateProduct(p: Product, now: Instant)
      modifies products`rows, p`dateLastUpdated
      requires products.Valid() && p.id.Some? && p.id.value in products.rows && p.Storable()
      requires forall id :: id in products.rows && id != p.id.value ==> products.rows[id].sku != p.sku
      ensures products.Valid()
      ensures products.rows == old(products.rows)[p.id.value := MergedProduct(old(products.rows[p.id.value]), old(p.Row()), now)]
    {
      products.Update(p, now);
    }

    /** deleteProduct: removes only that product's row. */
    method DeleteProduct(p: Product)
      modifies products`rows
      requires products.Valid() && p.id.Some?
      ensures products.Valid()
      ensures products.rows == old(products.rows) - {p.id.value}
      ensures forall id :: id in old(products.rows) && id != p.id.value ==> id in products.rows && products.rows[id] == old(products.rows[id])
    {
      products.Delete(p.id.value);
    }

    /** isOwner: the product's owner has that username. */
    function IsOwner(p: Product, username: string): (r: bool)
      reads p, p.owner
      requires p.owner != null
      ensures r <==> p.owner.username == username
    {
      p.owner.username == username
    }

    /** For a product loaded by FindById, isOwner agrees with the stored ownership. */
    lemma IsOwnerMatchesTable(p: Product, users: map<nat, UserRow>, pid: nat, name: string)
      requires pid in products.rows && OwnersExist(products.rows, users)
      requires p.owner != null && p.owner.Stamped() && p.owner.Row() == users[products.rows[pid].ownerId]
      ensures IsOwner(p, name) <==> OwnedBy(products.rows, users, pid, name)
    {
    }
  }
}
