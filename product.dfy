/**
 * The Product entity: its stored row, its JSON view, the bean-validation
 * constraints on a request body, and the entity object with its setters,
 * owner accessor and persistence hooks.
 */
module ProductEntity {
  import opened Common
  import opened UserEntity

  const MinQuantity: int := 0
  const MaxQuantity: int := 100

  /** @Min(0) @Max(100) on quantity. */
  predicate QuantityInRange(q: int)
  {
    MinQuantity <= q <= MaxQuantity
  }

  /** A product body as bound from JSON; absent or null fields are None. */
  datatype ProductInput = ProductInput(
    name: Option<string>,
    description: Option<string>,
    sku: Option<string>,
    manufacturer: Option<string>,
    quantity: Option<int>)

  /** The @Valid constraints of a product body. */
  predicate ValidProductInput(p: ProductInput)
  {
    && NotBlank(p.name) && NotBlank(p.description) && NotBlank(p.sku) && NotBlank(p.manufacturer)
    && p.quantity.Some? && QuantityInRange(p.quantity.value)
  }

  /** The quantity bounds are inclusive: 0 and 100 pass, -1 and 101 fail. */
  lemma QuantityBoundaries(p: ProductInput)
    requires NotBlank(p.name) && NotBlank(p.description) && NotBlank(p.sku) && NotBlank(p.manufacturer)
    ensures ValidProductInput(p.(quantity := Some(0))) && ValidProductInput(p.(quantity := Some(100)))
    ensures !ValidProductInput(p.(quantity := Some(-1))) && !ValidProductInput(p.(quantity := Some(101)))
    ensures !ValidProductInput(p.(quantity := None))
  {
  }

  /** A row of the products table; ownerId is the owner_user_id join column. */
  datatype ProductRow = ProductRow(
    name: string,
    description: string,
    sku: string,
    manufacturer: string,
    quantity: int,
    dateAdded: Instant,
    dateLastUpdated: Instant,
    ownerId: nat)

  /** The JSON a client sees for a product; the owner appears only as owner_user_id. */
  datatype ProductView = ProductView(
    id: nat,
    name: string,
    description: string,
    sku: string,
    manufacturer: string,
    quantity: int,
    dateAdded: Instant,
    dateLastUpdated: Instant,
    ownerUserId: nat)

  /** Serialising the stored product id/row. */
  function ViewOfProduct(id: nat, row: ProductRow): (v: ProductView)
    ensures v.id == id && v.sku == row.sku && v.ownerUserId == row.ownerId && v.quantity == row.quantity
    ensures v.name == row.name && v.description == row.description && v.manufacturer == row.manufacturer
    ensures v.dateAdded == row.dateAdded && v.dateLastUpdated == row.dateLastUpdated
  {
    ProductView(id, row.name, row.description, row.sku, row.manufacturer, row.quantity,
                row.dateAdded, row.dateLastUpdated, row.ownerId)
  }

  /** Reading a product view back: the stored id and row it was serialised from. */
  function RowOfView(v: ProductView): (p: (nat, ProductRow))
  {
    (v.id, ProductRow(v.name, v.description, v.sku, v.manufacturer, v.quantity,
                      v.dateAdded, v.dateLastUpdated, v.ownerUserId))
  }

  /** The product view loses nothing: the id and the whole row are recovered from it. */
  lemma ProductViewRoundTrip(id: nat, row: ProductRow)
    ensures RowOfView(ViewOfProduct(id, row)) == (id, row)
  {
  }

  /** Hence distinct stored products never serialise alike. */
  lemma ProductViewInjective(id1: nat, r1: ProductRow, id2: nat, r2: ProductRow)
    ensures ViewOfProduct(id1, r1) == ViewOfProduct(id2, r2) <==> id1 == id2 && r1 == r2
  {
    ProductViewRoundTrip(id1, r1);
    ProductViewRoundTrip(id2, r2);
  }

  /** A stored product satisfies the entity constraints (SKU uniqueness is a property of the table). */
  predicate ValidProductRow(r: ProductRow)
  {
    ValidProductInput(ProductInput(Some(r.name), Some(r.description), Some(r.sku), Some(r.manufacturer), Some(r.quantity)))
  }

  /** The Product entity object, with the fields of the Java class. */
  class Product {
    var id: Option<nat>
    var name: string
    var description: string
    var sku: string
    var manufacturer: string
    var quantity: int
    var dateAdded: Option<Instant>
    var dateLastUpdated: Option<Instant>
    var owner: User?

    /** A product bound from a request body: no id, no dates, no owner. */
    constructor FromBody(name: string, description: string, sku: string, manufacturer: string, quantity: int)
      ensures id == None && dateAdded == None && dateLastUpdated == None && owner == null
      ensures this.name == name && this.description == description && this.sku == sku
      ensures this.manufacturer == manufacturer && this.quantity == quantity
    {
      id := None;
      this.name := name;
      this.description := description;
      this.sku := sku;
      this.manufacturer := manufacturer;
      this.quantity := quantity;
      dateAdded := None;
      dateLastUpdated := None;
      owner := null;
    }

    /** The managed entity loaded from the stored row with key id, its owner fetched eagerly. */
    constructor Load(id: nat, row: ProductRow, owner: User)
      requires owner.id == Some(row.ownerId)
      ensures this.id == Some(id) && this.owner == owner && Storable() && Row() == row
    {
      this.id := Some(id);
      name := row.name;
      description := row.description;
      sku := row.sku;
      manufacturer := row.manufacturer;
      quantity := row.quantity;
      dateAdded := Some(row.dateAdded);
      dateLastUpdated := Some(row.dateLastUpdated);
      this.owner := owner;
    }

    /** Dates assigned and a persisted owner set, so the object can be written as a row. */
    predicate Storable()
      reads this, owner
    {
      dateAdded.Some? && dateLastUpdated.Some? && owner != null && owner.id.Some?
    }

    /** The row this object is written as. */
    function Row(): ProductRow
      reads this, owner
      requires Storable()
    {
      ProductRow(name, description, sku, manufacturer, quantity, dateAdded.value, dateLastUpdated.value, owner.id.value)
    }

    /** getOwnerId: the owner's id, or null without an owner. */
    function GetOwnerId(): (r: Option<nat>)
      reads this, owner
      ensures owner == null ==> r == None
      ensures owner != null ==> r == owner.id
      ensures Storable() ==> r == Some(Row().ownerId)
    {
      if owner != null then owner.id else None
    }

    /** setId ignores client input. */
    method SetId(id: Option<nat>)
      modifies this
      ensures unchanged(this)
    {
    }

    /** setDateAdded ignores client input. */
    method SetDateAdded(t: Instant)
      modifies this
      ensures unchanged(this)
    {
    }

    /** setDateLastUpdated ignores client input. */
    method SetDateLastUpdated(t: Instant)
      modifies this
      ensures unchanged(this)
    {
    }

    method SetName(name: string)
      modifies this`name
      ensures this.name == name
    {
      this.name := name;
    }

    method SetDescription(description: string)
      modifies this`description
      ensures this.description == description
    {
      this.description := description;
    }

    method SetSku(sku: string)
      modifies this`sku
      ensures this.sku == sku
    {
      this.sku := sku;
    }

    method SetManufacturer(manufacturer: string)
      modifies this`manufacturer
      ensures this.manufacturer == manufacturer
    {
      this.manufacturer := manufacturer;
    }

    method SetQuantity(quantity: int)
      modifies this`quantity
      ensures this.quantity == quantity
    {
      this.quantity := quantity;
    }

    method SetOwner(owner: User?)
      modifies this`owner
      ensures this.owner == owner
    {
      this.owner := owner;
    }

    /** @PrePersist: both dates take the current instant. */
    method OnCreate(now: Instant)
      modifies this`dateAdded, this`dateLastUpdated
      ensures dateAdded == Some(now) && dateLastUpdated == Some(now)
    {
      dateAdded := Some(now);
      dateLastUpdated := Some(now);
    }

    /** @PreUpdate: only dateLastUpdated moves; dateAdded is not updatable. */
    method OnUpdate(now: Instant)
      modifies this`dateLastUpdated
      ensures dateLastUpdated == Some(now)
    {
      dateLastUpdated := Some(now);
    }
  }
}
