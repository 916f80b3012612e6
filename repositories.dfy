/**
 * The database tables behind the Spring Data repositories, one class per
 * repository. Each table is a map from generated key to stored row; finders
 * load fresh entity objects from rows, and save writes an entity's row back
 * (a persist for a new entity, a dirty-checked merge for a loaded one).
 */
module Repositories {
  import opened Common
  import opened UserEntity
  import opened ProductEntity
  import opened TokenEntity

  /** Every key in the table was handed out before next (an identity column). */
  predicate KeysBelow<R>(rows: map<nat, R>, next: nat)
  {
    forall id :: id in rows ==> id < next
  }

  // ---------------------------------------------------------------------------
  // users
  // ---------------------------------------------------------------------------

  /** The unique constraint on users.username. */
  predicate UsernamesUnique(rows: map<nat, UserRow>)
  {
    forall a, b :: a in rows && b in rows && rows[a].username == rows[b].username ==> a == b
  }

  /** existsByUsername. */
  predicate HasUsername(rows: map<nat, UserRow>, name: string)
  {
    exists id :: id in rows && rows[id].username == name
  }

  /** The key of the one user called name. */
  function UserIdByName(rows: map<nat, UserRow>, name: string): (id: nat)
    requires UsernamesUnique(rows) && HasUsername(rows, name)
    ensures id in rows && rows[id].username == name
  {
    var id :| id in rows && rows[id].username == name; id
  }

  /**
   * Saving a loaded user: an unchanged entity writes nothing and fires no
   * @PreUpdate; a changed one is written, stamped by the hook, and keeps the
   * stored accountCreated, which is not updatable.
   */
  function MergedUser(stored: UserRow, current: UserRow, now: Instant): (r: UserRow)
    ensures r.accountCreated == stored.accountCreated
    ensures current == stored ==> r == stored
    ensures current != stored ==> r.accountUpdated == now
    ensures r.username == current.username && r.password == current.password
    ensures r.firstName == current.firstName && r.lastName == current.lastName
    ensures r.emailVerified == current.emailVerified
  {
    if current == stored then stored
    else current.(accountCreated := stored.accountCreated, accountUpdated := now)
  }

  /** The users table (UserRepository). */
  class UserRepository {
    var rows: map<nat, UserRow>
    var nextId: nat

    ghost predicate Valid()
      reads this
    {
      KeysBelow(rows, nextId) && UsernamesUnique(rows)
    }

    constructor ()
      ensures rows == map[] && nextId == 0 && Valid()
    {
      rows := map[];
      nextId := 0;
    }

    /** findById: a fresh entity for the stored row, or null. */
    method FindById(id: nat) returns (u: User?)
      ensures u == null <==> id !in rows
      ensures u != null ==> fresh(u) && u.id == Some(id) && u.Stamped() && u.Row() == rows[id]
    {
      if id in rows {
        u := new User.Load(id, rows[id]);
      } else {
        u := null;
      }
    }

    /** findByUsername: a fresh entity for the user with that name, or null. */
    method FindByUsername(name: string) returns (u: User?)
      requires Valid()
      ensures u == null <==> !HasUsername(rows, name)
      ensures u != null ==> fresh(u) && u.id == Some(UserIdByName(rows, name)) && u.Stamped()
      ensures u != null ==> u.Row() == rows[u.id.value]
    {
      if HasUsername(rows, name) {
        var id := UserIdByName(rows, name);
        u := new User.Load(id, rows[id]);
      } else {
        u := null;
      }
    }

    /** save on a new user: @PrePersist stamps it and the table assigns the next key. */
    method Insert(u: User, now: Instant)
      modifies this, u`id, u`accountCreated, u`accountUpdated
      requires Valid() && u.id == None && !HasUsername(rows, u.username)
      ensures Valid()
      ensures nextId == old(nextId) + 1 && u.id == Some(old(nextId))
      ensures u.accountCreated == Some(now) && u.accountUpdated == Some(now)
      ensures rows == old(rows)[old(nextId) := u.Row()]
    {
      u.OnCreate(now);
      u.id := Some(nextId);
      rows := rows[nextId := u.Row()];
      nextId := nextId + 1;
    }

    /** save on a loaded user: the dirty-checked merge of MergedUser. */
    method Update(u: User, now: Instant)
      modifies this`rows, u`accountUpdated
      requires Valid() && u.id.Some? && u.id.value in rows && u.Stamped()
      requires forall id :: id in rows && id != u.id.value ==> rows[id].username != u.username
      ensures Valid()
      ensures rows == old(rows)[u.id.value := MergedUser(old(rows[u.id.value]), old(u.Row()), now)]
      ensures u.accountUpdated == if old(u.Row()) == old(rows[u.id.value]) then old(u.accountUpdated) else Some(now)
    {
      var id := u.id.value;
      if u.Row() != rows[id] {
        var created := rows[id].accountCreated;
        u.OnUpdate(now);
        rows := rows[id := u.Row().(accountCreated := created)];
      }
    }
  }

  // ---------------------------------------------------------------------------
  // products
  // ---------------------------------------------------------------------------

  /** The unique constraint on products.sku. */
  predicate SkusUnique(rows: map<nat, ProductRow>)
  {
    forall a, b :: a in rows && b in rows && rows[a].sku == rows[b].sku ==> a == b
  }

  /** existsBySku. */
  predicate HasSku(rows: map<nat, ProductRow>, sku: string)
  {
    exists id :: id in rows && rows[id].sku == sku
  }

  /** The owner_user_id join column refers to a stored user. */
  predicate OwnersExist(rows: map<nat, ProductRow>, users: map<nat, UserRow>)
  {
    forall id :: id in rows ==> rows[id].ownerId in users
  }

  /** Saving a loaded product, as MergedUser: dateAdded is not updatable. */
  function MergedProduct(stored: ProductRow, current: ProductRow, now: Instant): (r: ProductRow)
    ensures r.dateAdded == stored.dateAdded
    ensures current == stored ==> r == stored
    ensures current != stored ==> r.dateLastUpdated == now
    ensures r.name == current.name && r.description == current.description && r.sku == current.sku
    ensures r.manufacturer == current.manufacturer && r.quantity == current.quantity
    ensures r.ownerId == current.ownerId
  {
    if current == stored then stored
    else current.(dateAdded := stored.dateAdded, dateLastUpdated := now)
  }

  /** The products table (ProductRepository). */
  class ProductRepository {
    var rows: map<nat, ProductRow>
    var nextId: nat

    ghost predicate Valid()
      reads this
    {
      KeysBelow(rows, nextId) && SkusUnique(rows)
    }

    constructor ()
      ensures rows == map[] && nextId == 0 && Valid()
    {
      rows := map[];
      nextId := 0;
    }

    /** findById: a fresh entity for the stored row, its owner loaded from users, or null. */
    method FindById(id: nat, users: UserRepository) returns (p: Product?)
      requires OwnersExist(rows, users.rows)
      ensures p == null <==> id !in rows
      ensures p != null ==> fresh(p) && fresh(p.owner) && p.id == Some(id) && p.Storable()
      ensures p != null ==> p.Row() == rows[id] && p.owner.Stamped() && p.owner.Row() == users.rows[rows[id].ownerId]
    {
      if id in rows {
        var owner := new User.Load(rows[id].ownerId, users.rows[rows[id].ownerId]);
        p := new Product.Load(id, rows[id], owner);
      } else {
        p := null;
      }
    }

    /** save on a new product: @PrePersist stamps it and the table assigns the next key. */
    method Insert(p: Product, now: Instant)
      modifies this, p`id, p`dateAdded, p`dateLastUpdated
      requires Valid() && p.id == None && !HasSku(rows, p.sku)
      requires p.owner != null && p.owner.id.Some?
      ensures Valid()
      ensures nextId == old(nextId) + 1 && p.id == Some(old(nextId))
      ensures p.dateAdded == Some(now) && p.dateLastUpdated == Some(now)
      ensures rows == old(rows)[old(nextId) := p.Row()]
    {
      p.OnCreate(now);
      p.id := Some(nextId);
      rows := rows[nextId := p.Row()];
      nextId := nextId + 1;
    }

    /** save on a loaded product: the dirty-checked merge of MergedProduct. */
    method Update(p: Product, now: Instant)
      modifies this`rows, p`dateLastUpdated
      requires Valid() && p.id.Some? && p.id.value in rows && p.Storable()
      requires forall id :: id in rows && id != p.id.value ==> rows[id].sku != p.sku
      ensures Valid()
      ensures rows == old(rows)[p.id.value := MergedProduct(old(rows[p.id.value]), old(p.Row()), now)]
      ensures p.dateLastUpdated == if old(p.Row()) == old(rows[p.id.value]) then old(p.dateLastUpdated) else Some(now)
    {
      var id := p.id.value;
      if p.Row() != rows[id] {
        var added := rows[id].dateAdded;
        p.OnUpdate(now);
        rows := rows[id := p.Row().(dateAdded := added)];
      }
    }

    /** delete: removes that one row. */
    method Delete(id: nat)
      modifies this`rows
      requires Valid()
      ensures Valid()
      ensures rows == old(rows) - {id}
    {
      rows := rows - {id};
    }
  }

  // ---------------------------------------------------------------------------
  // email verification tokens
  // ---------------------------------------------------------------------------

  /** The unique constraint on the token column. */
  predicate TokensUnique(rows: map<nat, TokenRow>)
  {
    forall a, b :: a in rows && b in rows && rows[a].token == rows[b].token ==> a == b
  }

  /** findByToken finds a row. */
  predicate HasToken(rows: map<nat, TokenRow>, value: string)
  {
    exists id :: id in rows && rows[id].token == value
  }

  /** The key of the one token with that value. */
  function TokenIdByValue(rows: map<nat, TokenRow>, value: string): (id: nat)
    requires TokensUnique(rows) && HasToken(rows, value)
    ensures id in rows && rows[id].token == value
  {
    var id :| id in rows && rows[id].token == value; id
  }

  /** findByUserEmailAndVerifiedFalse finds a row. */
  predicate HasOpenToken(rows: map<nat, TokenRow>, email: string)
  {
    exists id :: id in rows && rows[id].userEmail == email && !rows[id].verified
  }

  /** The email_verification_tokens table (EmailVerificationTokenRepository). */
  class TokenRepository {
    var rows: map<nat, TokenRow>
    var nextId: nat

    ghost predicate Valid()
      reads this
    {
      KeysBelow(rows, nextId) && TokensUnique(rows)
    }

    constructor ()
      ensures rows == map[] && nextId == 0 && Valid()
    {
      rows := map[];
      nextId := 0;
    }

    /** findByToken: a fresh entity for the row with that token value, or empty. */
    method FindByToken(value: string) returns (t: EmailVerificationToken?)
      requires Valid()
      ensures t == null <==> !HasToken(rows, value)
      ensures t != null ==> fresh(t) && t.id == Some(TokenIdByValue(rows, value)) && t.Storable()
      ensures t != null ==> t.Row() == rows[t.id.value]
    {
      if HasToken(rows, value) {
        var id := TokenIdByValue(rows, value);
        t := new EmailVerificationToken.Load(id, rows[id]);
      } else {
        t := null;
      }
    }

    /**
     * save on a new token: @PrePersist assigns the token value (uuid unless one
     * is preset) and the timestamps; the table assigns the next key.
     */
    method Insert(t: EmailVerificationToken, now: Instant, uuid: string)
      modifies this, t`id, t`token, t`createdAt, t`expiresAt
      requires Valid() && t.id == None && t.userEmail.Some?
      requires !HasToken(rows, if t.token.None? then uuid else t.token.value)
      ensures Valid()
      ensures nextId == old(nextId) + 1 && t.id == Some(old(nextId))
      ensures t.token == if old(t.token).None? then Some(uuid) else old(t.token)
      ensures t.createdAt == Some(now) && t.expiresAt == Some(PlusSeconds(now, ExpirySeconds))
      ensures rows == old(rows)[old(nextId) := t.Row()]
    {
      t.OnCreate(now, uuid);
      t.id := Some(nextId);
      rows := rows[nextId := t.Row()];
      nextId := nextId + 1;
    }

    /** save on a loaded token whose value is unchanged: the row takes the entity's fields. */
    method Update(t: EmailVerificationToken)
      modifies this`rows
      requires Valid() && t.id.Some? && t.id.value in rows && t.Storable()
      requires t.token.value == rows[t.id.value].token
      ensures Valid()
      ensures rows == old(rows)[t.id.value := t.Row()]
    {
      rows := rows[t.id.value := t.Row()];
    }
  }

  // ---------------------------------------------------------------------------
  // images
  // ---------------------------------------------------------------------------

  /** A row of the images table (the Image record); productId is the product_id join column. */
  datatype Image = Image(fileName: string, dateCreated: Instant, path: string, productId: nat)

  /** findByProduct_Id: the images of one product, keyed by image id. */
  function ImagesOf(rows: map<nat, Image>, productId: nat): (r: map<nat, Image>)
    ensures forall id :: id in r <==> id in rows && rows[id].productId == productId
    ensures forall id :: id in r ==> r[id] == rows[id]
  {
    map id | id in rows && rows[id].productId == productId :: rows[id]
  }

  /** findByImageIdAndProduct_Id: the image, only when it belongs to that product. */
  function ImageOf(rows: map<nat, Image>, imageId: nat, productId: nat): (r: Option<Image>)
    ensures r.Some? <==> imageId in rows && rows[imageId].productId == productId
    ensures r.Some? ==> r.value == rows[imageId]
  {
    if imageId in rows && rows[imageId].productId == productId then Some(rows[imageId]) else None
  }

  /**
   * The product_id foreign key of the images table: every image row refers to
   * a stored product. The database enforces it, so no write may break it.
   */
  predicate ImagesHaveProducts(images: map<nat, Image>, products: map<nat, ProductRow>)
  {
    forall id :: id in images ==> images[id].productId in products
  }

  /** The images table (ImageRepository). */
  class ImageRepository {
    var rows: map<nat, Image>
    var nextId: nat

    ghost predicate Valid()
      reads this
    {
      KeysBelow(rows, nextId)
    }

    constructor ()
      ensures rows == map[] && nextId == 0 && Valid()
    {
      rows := map[];
      nextId := 0;
    }

    /** save on a new image: @PrePersist sets dateCreated and the table assigns the next key. */
    method Insert(fileName: string, path: string, productId: nat, now: Instant) returns (id: nat)
      modifies this
      requires Valid()
      ensures Valid()
      ensures id == old(nextId) && nextId == old(nextId) + 1
      ensures rows == old(rows)[id := Image(fileName, now, path, productId)]
    {
      id := nextId;
      rows := rows[id := Image(fileName, now, path, productId)];
      nextId := nextId + 1;
    }

    /** delete: removes that one row. */
    method Delete(id: nat)
      modifies this`rows
      requires Valid()
      ensures Valid()
      ensures rows == old(rows) - {id}
    {
      rows := rows - {id};
    }
  }
}
