# healthcheckapi product catalogue, modelled in Dafny

This project models the core of the healthcheckapi web service. The service is a Spring Boot REST API with these parts:

- user accounts: registration posts a verification token and the account is then confirmed through a link;
- products owned by users, created, read, replaced (PUT), patched (PATCH) and deleted by their owner;
- product images, kept either in an S3 bucket or in a local directory tree under a key `user_{id}/product_{id}/{uuid}{ext}`;
- the cross-cutting pieces: the URL authorisation table, the filter that blocks unverified accounts, the mapping of exceptions to HTTP statuses, and the `/healthz` probe.

The database tables are maps from identity keys to row values inside repository classes. JPA entities (`User`, `Product`, `EmailVerificationToken`) are Dafny classes with the entity fields. A repository loads a fresh entity from a row and saves an entity's row back. A new entity is inserted, which runs its `@PrePersist` hook. A loaded entity is merged: dirty checking writes nothing when the row is unchanged, and otherwise the `@PreUpdate` hook stamps it.

Nothing a handler needs from the environment is computed inside the model. It is passed in as a parameter:

- the clock, as `now`, in nanoseconds;
- generated UUIDs, as `uuid`;
- BCrypt hashes, as `hash`;
- the outcome of the health probe;
- whether the SNS publish, the file system or the S3 call fails, as a boolean fault.

Each controller handler is specified by a pure status function of the tables before the request, for example `UserControllers.UpdateUserStatus` or `ImageControllers.UploadStatus`. The handler method is proved to return that status. It is also proved to leave every table and storage backend exactly as a second function describes, and unchanged on every error status. Lemmas then relate these functions:

- a second registration or a second verification is refused;
- an empty PATCH writes nothing, and an account update writes nothing exactly when it supplies only stored values;
- a product cannot be deleted while images refer to it;
- a SKU check keeps SKUs unique;
- object keys partition storage by owner and product;
- a deleted image is not found again.

Where the code and the behaviour its tests expect differ, the model follows the code:

- `SecurityConfig` as written lets no request reach the image routes (`/v1/product/{id}/image...` falls to `denyAll`), and it requires credentials for `GET /v1/user/verify`. `SecurityConfiguration.ImageRoutesAreDenied` and `SecurityConfiguration.UserVerifyNeedsCredentials` state this. The image controller is still modelled, as the code that would run behind a permitting rule.
- Deleting a product that still has images is refused with 400, and nothing changes. Image.java declares a non-nullable `product_id` join column and no cascade. The foreign key therefore rejects the delete with a data-integrity violation, which GlobalExceptionHandler.java:26 maps to 400. `ProductControllers.DeleteStatus` and `ProductControllers.ImagesMustBeDeletedFirst` state this.
- Spring resolves an exception to its most specific handler. The 400 at GlobalExceptionHandler.java:81 is therefore unreachable for an integrity violation, which is handled at line 26. `ExceptionHandling.DataAccessResolutionAgrees` states the resolution the model uses.

UserService.java, UserRepository.java and ProductRepository.java are not part of this model. `UserServices` and the `Repositories` classes model them only as far as the visible callers use them.

## Model

| member | source | states |
|---|---|---|
| Common.LastIndexOf | src/main/java/com/example/healthcheckapi/service/ImageService.java:47 | -1 exactly when the character is absent; otherwise an index holding it with no later occurrence |
| Common.ToLowerFoldsCase | src/main/java/com/example/healthcheckapi/service/ImageService.java:49 | no upper-case ASCII letter is left after lower-casing, and the only characters that change are upper-case letters, each to its lower-case partner |
| Common.ToLowerIdempotent | src/main/java/com/example/healthcheckapi/service/ImageService.java:49 | lower-casing twice is lower-casing once |
| Common.NatToString | src/main/java/com/example/healthcheckapi/service/S3Service.java:72 | the decimal rendering of an id is non-empty and made of digits |
| Common.NatToStringInjective | src/main/java/com/example/healthcheckapi/service/S3Service.java:72 | distinct ids render to distinct decimal strings |
| Common.PrefixCancels | src/main/java/com/example/healthcheckapi/service/S3Service.java:72 | a common prefix cancels: pre + a == pre + b iff a == b |
| UserEntity.ViewIgnoresPassword | src/main/java/com/example/healthcheckapi/entity/User.java:29 | the password is write-only: changing it never changes the view |
| UserEntity.ViewHidesOnlyPassword | src/main/java/com/example/healthcheckapi/entity/User.java:16-52 | two stored users serialise alike exactly when they have the same id and differ at most in the password |
| UserEntity.User.FromBody | src/main/java/com/example/healthcheckapi/entity/User.java:16-52 | a request-body user has no id, no timestamps and is not verified, whatever the client sent |
| UserEntity.User.Load | src/main/java/com/example/healthcheckapi/entity/User.java:16-52 | a loaded user carries the stored row and its id |
| UserEntity.User.SetId | src/main/java/com/example/healthcheckapi/entity/User.java:70-71 | ignores client input: the entity is unchanged |
| UserEntity.User.SetAccountCreated | src/main/java/com/example/healthcheckapi/entity/User.java:73-74 | ignores client input: the entity is unchanged |
| UserEntity.User.SetAccountUpdated | src/main/java/com/example/healthcheckapi/entity/User.java:76-77 | ignores client input: the entity is unchanged |
| UserEntity.User.SetPassword | src/main/java/com/example/healthcheckapi/entity/User.java:96-98 | sets only the password |
| UserEntity.User.SetFirstName | src/main/java/com/example/healthcheckapi/entity/User.java:104-106 | sets only the first name |
| UserEntity.User.SetLastName | src/main/java/com/example/healthcheckapi/entity/User.java:112-114 | sets only the last name |
| UserEntity.User.SetEmailVerified | src/main/java/com/example/healthcheckapi/entity/User.java:128-130 | sets only the verified flag |
| UserEntity.User.OnCreate | src/main/java/com/example/healthcheckapi/entity/User.java:58-62 | @PrePersist sets both timestamps to now |
| UserEntity.User.OnUpdate | src/main/java/com/example/healthcheckapi/entity/User.java:64-67 | @PreUpdate sets only accountUpdated to now |
| UserEntity.ValidUserInput | src/main/java/com/example/healthcheckapi/entity/User.java:21-39 | a registration body passes @Valid exactly when the username is not blank and e-mail shaped (an approximation of @Email), the password has at least 8 characters and both names are not blank |
| ProductEntity.QuantityBoundaries | src/main/java/com/example/healthcheckapi/entity/Product.java:37-41 | quantity 0 and 100 are valid; -1, 101 and a missing quantity are not |
| ProductEntity.QuantityInRange | src/main/java/com/example/healthcheckapi/entity/Product.java:39-40 | @Min(0) @Max(100): the bounds are inclusive; QuantityBoundaries pins both edges |
| ProductEntity.ValidProductInput | src/main/java/com/example/healthcheckapi/entity/Product.java:20-41 | the body passes @Valid exactly when the four strings are not blank and the quantity is present and within bounds; QuantityBoundaries states the edges |
| ProductEntity.ProductViewRoundTrip | src/main/java/com/example/healthcheckapi/entity/Product.java:16-59 | the product JSON loses nothing: the stored id and row are read back from it |
| ProductEntity.ProductViewInjective | src/main/java/com/example/healthcheckapi/entity/Product.java:16-59 | two stored products serialise alike exactly when id and row are equal |
| ProductEntity.Product.FromBody | src/main/java/com/example/healthcheckapi/entity/Product.java:16-54 | a request-body product has no id, no dates and no owner |
| ProductEntity.Product.Load | src/main/java/com/example/healthcheckapi/entity/Product.java:16-54 | a loaded product carries the stored row, its id and its owner |
| ProductEntity.Product.GetOwnerId | src/main/java/com/example/healthcheckapi/entity/Product.java:56-59 | null without an owner; for a stored product, the owner_user_id reported is the row's join column |
| ProductEntity.Product.SetId | src/main/java/com/example/healthcheckapi/entity/Product.java:73-74 | ignores client input: the entity is unchanged |
| ProductEntity.Product.SetDateAdded | src/main/java/com/example/healthcheckapi/entity/Product.java:76-77 | ignores client input: the entity is unchanged |
| ProductEntity.Product.SetDateLastUpdated | src/main/java/com/example/healthcheckapi/entity/Product.java:79-80 | ignores client input: the entity is unchanged |
| ProductEntity.Product.SetName | src/main/java/com/example/healthcheckapi/entity/Product.java:91-93 | sets only the name |
| ProductEntity.Product.SetDescription | src/main/java/com/example/healthcheckapi/entity/Product.java:99-101 | sets only the description |
| ProductEntity.Product.SetSku | src/main/java/com/example/healthcheckapi/entity/Product.java:107-109 | sets only the SKU |
| ProductEntity.Product.SetManufacturer | src/main/java/com/example/healthcheckapi/entity/Product.java:115-117 | sets only the manufacturer |
| ProductEntity.Product.SetQuantity | src/main/java/com/example/healthcheckapi/entity/Product.java:123-125 | sets only the quantity |
| ProductEntity.Product.SetOwner | src/main/java/com/example/healthcheckapi/entity/Product.java:139-141 | sets only the owner |
| ProductEntity.Product.OnCreate | src/main/java/com/example/healthcheckapi/entity/Product.java:61-65 | @PrePersist sets both dates to now |
| ProductEntity.Product.OnUpdate | src/main/java/com/example/healthcheckapi/entity/Product.java:67-70 | @PreUpdate sets only dateLastUpdated to now |
| TokenEntity.UsableUntilExpiry | src/main/java/com/example/healthcheckapi/entity/EmailVerificationToken.java:42-44 | a token is still usable at its expiry instant and expired one nanosecond later |
| TokenEntity.ExpiryIsMonotone | src/main/java/com/example/healthcheckapi/entity/EmailVerificationToken.java:42-44 | once expired, a token stays expired |
| TokenEntity.ExpiredAt | src/main/java/com/example/healthcheckapi/entity/EmailVerificationToken.java:42-44 | isExpired: the instant now is strictly after expiresAt; UsableUntilExpiry and ExpiryIsMonotone state its edge and monotonicity |
| TokenEntity.TokenLifetime | src/main/java/com/example/healthcheckapi/entity/EmailVerificationToken.java:38-44 | a token created at c is expired at t exactly when more than sixty seconds have passed, so it is usable through its whole first minute |
| TokenEntity.EmailVerificationToken.constructor | src/main/java/com/example/healthcheckapi/entity/EmailVerificationToken.java:12-31 | a new token has no fields set and is not verified |
| TokenEntity.EmailVerificationToken.Load | src/main/java/com/example/healthcheckapi/entity/EmailVerificationToken.java:12-31 | a loaded token carries the stored row and its id |
| TokenEntity.EmailVerificationToken.SetUserEmail | src/main/java/com/example/healthcheckapi/entity/EmailVerificationToken.java:67-69 | sets only the email |
| TokenEntity.EmailVerificationToken.SetVerified | src/main/java/com/example/healthcheckapi/entity/EmailVerificationToken.java:91-93 | sets only the verified flag |
| TokenEntity.EmailVerificationToken.OnCreate | src/main/java/com/example/healthcheckapi/entity/EmailVerificationToken.java:33-40 | keeps a preset token value or takes the fresh UUID; created now; expires 60 seconds later |
| Repositories.UserIdByName | src/main/java/com/example/healthcheckapi/entity/User.java:21 | the one stored user with that (unique) username |
| Repositories.HasUsername | src/main/java/com/example/healthcheckapi/controller/UserController.java:68 | existsByUsername: some stored account has that username; UserIdByName finds its one key |
| Repositories.MergedUser | src/main/java/com/example/healthcheckapi/entity/User.java:42-67 | a save writes the entity's fields, never accountCreated; an unchanged row is not written at all; a changed one gets accountUpdated = now |
| Repositories.UserRepository.constructor | src/main/java/com/example/healthcheckapi/entity/User.java:16-19 | an empty table |
| Repositories.UserRepository.FindById | src/main/java/com/example/healthcheckapi/controller/UserController.java:132-133 | null exactly when no row has the id, else a fresh entity holding the row |
| Repositories.UserRepository.FindByUsername | src/main/java/com/example/healthcheckapi/controller/UserController.java:53-59 | null exactly when no row has the username, else a fresh entity holding that row |
| Repositories.UserRepository.Insert | src/main/java/com/example/healthcheckapi/entity/User.java:16-62 | the next identity key gets the stamped entity's row; nothing else changes |
| Repositories.UserRepository.Update | src/main/java/com/example/healthcheckapi/entity/User.java:42-67 | the row becomes MergedUser of the stored and the entity's row; nothing else changes |
| Repositories.MergedProduct | src/main/java/com/example/healthcheckapi/entity/Product.java:43-70 | a save writes the entity's fields, never dateAdded; an unchanged row is not written; a changed one gets dateLastUpdated = now |
| Repositories.HasSku | src/main/java/com/example/healthcheckapi/service/ProductService.java:26-28 | existsBySku: some stored product has that SKU; SkuCheckKeepsSkusUnique shows the check keeps SKUs unique |
| Repositories.ProductRepository.constructor | src/main/java/com/example/healthcheckapi/entity/Product.java:16-19 | an empty table |
| Repositories.ProductRepository.FindById | src/main/java/com/example/healthcheckapi/service/ProductService.java:22-24 | null exactly when no row has the id, else a fresh entity with its eagerly loaded owner |
| Repositories.ProductRepository.Insert | src/main/java/com/example/healthcheckapi/service/ProductService.java:17-20 | the next identity key gets the stamped entity's row; nothing else changes |
| Repositories.ProductRepository.Update | src/main/java/com/example/healthcheckapi/service/ProductService.java:30-32 | the row becomes MergedProduct of the stored and the entity's row |
| Repositories.ProductRepository.Delete | src/main/java/com/example/healthcheckapi/service/ProductService.java:34-36 | removes exactly that row |
| Repositories.TokenIdByValue | src/main/java/com/example/healthcheckapi/entity/EmailVerificationToken.java:18-19 | the one stored token with that (unique) value |
| Repositories.TokenRepository.constructor | src/main/java/com/example/healthcheckapi/repository/EmailVerificationTokenRepository.java:9-12 | an empty table |
| Repositories.TokenRepository.FindByToken | src/main/java/com/example/healthcheckapi/repository/EmailVerificationTokenRepository.java:10 | empty exactly when no row has the value, else a fresh entity holding it |
| Repositories.TokenRepository.Insert | src/main/java/com/example/healthcheckapi/entity/EmailVerificationToken.java:33-40 | the next key gets the row stamped by @PrePersist: value, created now, expiring 60 s later |
| Repositories.TokenRepository.Update | src/main/java/com/example/healthcheckapi/service/EmailVerificationService.java:61-63 | the row takes the entity's fields |
| Repositories.ImageRepository.constructor | src/main/java/com/example/healthcheckapi/entity/Image.java:12-18 | an empty table |
| Repositories.ImageRepository.Insert | src/main/java/com/example/healthcheckapi/entity/Image.java:42-45 | the next key gets the record with dateCreated = now; nothing else changes |
| Repositories.ImageRepository.Delete | src/main/java/com/example/healthcheckapi/service/ImageService.java:81 | removes exactly that row |
| Repositories.ImagesHaveProducts | src/main/java/com/example/healthcheckapi/entity/Image.java:32-33 | the non-nullable product_id foreign key: every image row refers to a stored product; DeleteProduct keeps it |
| EmailVerification.Verification | src/main/java/com/example/healthcheckapi/service/EmailVerificationService.java:33-77 | the first failing check in order: unknown token, other email, expired, already used, missing user; each outcome characterised by an iff |
| EmailVerification.Redeemable | src/main/java/com/example/healthcheckapi/service/EmailVerificationService.java:43-59 | a token may be redeemed by that address when it is bound to it, unexpired and unused; VerifiedFlagNeedsRedeemableToken shows it is the only way to verification |
| EmailVerification.TokensAfterVerification | src/main/java/com/example/healthcheckapi/service/EmailVerificationService.java:61-63 | same keys; only the redeemed token changes, to verified, and it changes exactly when the token was redeemable |
| EmailVerification.UsersAfterVerification | src/main/java/com/example/healthcheckapi/service/EmailVerificationService.java:65-76 | only the matching user changes, to verified, and only when the outcome is Verified |
| EmailVerification.VerificationKeepsTokensUnique | src/main/java/com/example/healthcheckapi/entity/EmailVerificationToken.java:18 | redemption keeps every token value, so the unique constraint still holds |
| EmailVerification.VerificationKeepsUsernamesUnique | src/main/java/com/example/healthcheckapi/entity/User.java:21 | redemption keeps every username, so the unique constraint still holds |
| EmailVerification.SecondVerificationFails | src/main/java/com/example/healthcheckapi/service/EmailVerificationService.java:55-59 | after a token is redeemed, redeeming it again (any email, any later time) fails |
| EmailVerification.VerifiedFlagNeedsRedeemableToken | src/main/java/com/example/healthcheckapi/service/EmailVerificationService.java:33-77 | an account becomes verified only through a redeemable token of its own email |
| EmailVerification.VerificationOnlyClosesTokens | src/main/java/com/example/healthcheckapi/service/EmailVerificationService.java:61-63 | after verifyToken, hasUnverifiedToken holds for an address only if it held before, and for every other address it is unchanged |
| EmailVerification.EmailVerificationService.constructor | src/main/java/com/example/healthcheckapi/service/EmailVerificationService.java:17-25 | the service works on the given tables |
| EmailVerification.EmailVerificationService.CreateToken | src/main/java/com/example/healthcheckapi/service/EmailVerificationService.java:27-31 | adds one open token for the email, created now and expiring 60 s later |
| EmailVerification.EmailVerificationService.VerifyToken | src/main/java/com/example/healthcheckapi/service/EmailVerificationService.java:33-77 | true iff Verification is Verified; tables become TokensAfterVerification and UsersAfterVerification |
| UserServices.CallerVerified | src/main/java/com/example/healthcheckapi/controller/UserController.java:53-59 | true iff an authenticated principal has a stored account that is verified |
| UserServices.UserService.constructor | src/main/java/com/example/healthcheckapi/controller/UserController.java:53-59 | the service works on the given users table |
| UserServices.UserService.IsEmailVerified | src/main/java/com/example/healthcheckapi/controller/ImageController.java:39-45 | agrees with CallerVerified on the current table |
| UserServices.UserService.CreateUser | src/main/java/com/example/healthcheckapi/controller/UserController.java:81 | stores the account under the next key with the hashed password, stamped now |
| UserServices.UserService.UpdateUser | src/main/java/com/example/healthcheckapi/controller/UserController.java:200-218 | saves through MergedUser, with the new hash only when a new password is given |
| UserControllers.UserLocationInjective | src/main/java/com/example/healthcheckapi/controller/UserController.java:105-107 | distinct accounts get distinct Location headers |
| UserControllers.UserLocation | src/main/java/com/example/healthcheckapi/controller/UserController.java:106 | the Location of a created account; UserLocationInjective shows it names exactly one account |
| UserControllers.CreateUserStatus | src/main/java/com/example/healthcheckapi/controller/UserController.java:63-116 | 201 iff the body is valid, the username is free and no verification is pending for it; otherwise 400 |
| UserControllers.SecondRegistrationRefused | src/main/java/com/example/healthcheckapi/controller/UserController.java:68-79 | after a registration, the same username is refused again |
| UserControllers.NewAccountUnverified | src/main/java/com/example/healthcheckapi/controller/UserController.java:63-84 | a registration keeps usernames unique, stores the account under the new key, and leaves it unverified, so its owner gets 403 from the account endpoints |
| UserControllers.OwnAccountStatus | src/main/java/com/example/healthcheckapi/controller/UserController.java:120-144 | 403 for an unverified caller, then 404 for a missing id, then 403 for another user's id, else 200 |
| UserControllers.UpdateUserStatus | src/main/java/com/example/healthcheckapi/controller/UserController.java:161-231 | the access status, then 400 for a key outside first_name/last_name/password or a password under 8 characters, else 204 |
| UserControllers.EmptyUpdateIsNoOp | src/main/java/com/example/healthcheckapi/controller/UserController.java:191-218 | an update with no keys leaves the stored row, timestamps included, as it was |
| UserControllers.UpdateIsNoOpExactlyWhenUnchanged | src/main/java/com/example/healthcheckapi/controller/UserController.java:191-218 | an update writes nothing exactly when every supplied value is already stored (the password by its hash); otherwise it is written and stamped |
| UserControllers.OnlyUpdatableKeys | src/main/java/com/example/healthcheckapi/controller/UserController.java:191-197 | the key loop succeeds iff every key is updatable |
| UserControllers.UserController.constructor | src/main/java/com/example/healthcheckapi/controller/UserController.java:31-38 | the controller and its services share the tables |
| UserControllers.UserController.CreateUser | src/main/java/com/example/healthcheckapi/controller/UserController.java:63-116 | status is CreateUserStatus; on 201 one account and one open token are added and the Location names the account; otherwise nothing changes; a failed publish changes nothing |
| UserControllers.UserController.GetUser | src/main/java/com/example/healthcheckapi/controller/UserController.java:120-157 | status is OwnAccountStatus; the view is returned only on 200 |
| UserControllers.UserController.UpdateUser | src/main/java/com/example/healthcheckapi/controller/UserController.java:161-231 | status is UpdateUserStatus; on 204 the row becomes the merge of UpdatedAccount; otherwise nothing changes |
| UserControllers.UserController.VerifyEmail | src/main/java/com/example/healthcheckapi/controller/UserController.java:235-262 | 200 iff no database failure and Verification is Verified, else 400; a failure rolls back every write |
| ProductServices.ProductService.constructor | src/main/java/com/example/healthcheckapi/service/ProductService.java:12-15 | the service works on the given products table |
| ProductServices.OwnedBy | src/main/java/com/example/healthcheckapi/service/ProductService.java:38-40 | the stored product's owner has that username; IsOwnerMatchesTable ties isOwner to it |
| ProductServices.ProductService.CreateProduct | src/main/java/com/example/healthcheckapi/service/ProductService.java:17-20 | the saved row is owned by the given user |
| ProductServices.ProductService.FindById | src/main/java/com/example/healthcheckapi/service/ProductService.java:22-24 | null exactly when the id is missing, else the stored product and its owner |
| ProductServices.ProductService.UpdateProduct | src/main/java/com/example/healthcheckapi/service/ProductService.java:30-32 | the row becomes MergedProduct |
| ProductServices.ProductService.DeleteProduct | src/main/java/com/example/healthcheckapi/service/ProductService.java:34-36 | only that row is removed; every other row is kept |
| ProductServices.ProductService.IsOwnerMatchesTable | src/main/java/com/example/healthcheckapi/service/ProductService.java:38-40 | for a loaded product, isOwner agrees with the stored ownership |
| ProductControllers.CreateProductStatus | src/main/java/com/example/healthcheckapi/controller/ProductController.java:26-43 | 201 iff the body is valid, the SKU is free and the caller has an account; otherwise 400 |
| ProductControllers.ProductLocation | src/main/java/com/example/healthcheckapi/controller/ProductController.java:41 | the Location of a created product, /v1/product/{id} |
| ProductControllers.CreatedRow | src/main/java/com/example/healthcheckapi/controller/ProductController.java:33-37 | the stored row has the body's fields, is owned by the caller, stamped now, and is a valid row |
| ProductControllers.OwnerAccessStatus | src/main/java/com/example/healthcheckapi/controller/ProductController.java:58-66 | 404 iff the product is missing; 200 iff it exists and the caller owns it; otherwise 403 |
| ProductControllers.SkuConflict | src/main/java/com/example/healthcheckapi/controller/ProductController.java:68-71 | a SKU change conflicts only when the new SKU differs from the product's own and is in use; KeepingOwnSkuIsAllowed and SkuCheckKeepsSkusUnique state its two sides |
| ProductControllers.PutStatus | src/main/java/com/example/healthcheckapi/controller/ProductController.java:54-83 | 400 for an invalid body first, then the access status, then 400 for a SKU conflict, else 204 |
| ProductControllers.PutRow | src/main/java/com/example/healthcheckapi/controller/ProductController.java:75-79 | all five fields replaced; owner and dates kept |
| ProductControllers.PatchStatus | src/main/java/com/example/healthcheckapi/controller/ProductController.java:85-132 | the access status, then 400 for a quantity outside 0..100, then 400 for a SKU conflict, else 204 |
| ProductControllers.EmptyPatchIsNoOp | src/main/java/com/example/healthcheckapi/controller/ProductController.java:113-130 | a PATCH with no fields leaves the row, dateLastUpdated included, as it was |
| ProductControllers.FullPatchIsPut | src/main/java/com/example/healthcheckapi/controller/ProductController.java:85-132 | a PATCH whose body is full and valid gets the same status as a PUT and writes the same row |
| ProductControllers.PatchIsIdempotent | src/main/java/com/example/healthcheckapi/controller/ProductController.java:114-128 | sending the same PATCH again leaves the row as the first one did |
| ProductControllers.DeleteStatus | src/main/java/com/example/healthcheckapi/controller/ProductController.java:134-148 | the owner check, then 400 while some image refers to the product; 204 exactly when the owner deletes a product with no images |
| ProductControllers.DeleteKeepsImagesAttached | src/main/java/com/example/healthcheckapi/entity/Image.java:32-33 | a delete that DeleteStatus allows keeps every image attached to a stored product |
| ProductControllers.ImagesMustBeDeletedFirst | src/main/java/com/example/healthcheckapi/controller/ProductController.java:134-148 | an owner's delete of a product with an image is refused with 400, and succeeds once the product's images are gone |
| ProductControllers.KeepingOwnSkuIsAllowed | src/main/java/com/example/healthcheckapi/controller/ProductController.java:69-71 | an owner's valid PUT that keeps its own SKU succeeds |
| ProductControllers.SkuCheckKeepsSkusUnique | src/main/java/com/example/healthcheckapi/controller/ProductController.java:106-111 | a write that passed the SKU check keeps SKUs unique |
| ProductControllers.ApplyPut | src/main/java/com/example/healthcheckapi/controller/ProductController.java:75-79 | the entity's row becomes PutRow of its old row: every field from the body, owner and dates kept |
| ProductControllers.ApplyPatch | src/main/java/com/example/healthcheckapi/controller/ProductController.java:114-128 | the entity's row becomes PatchRow of its old row |
| ProductControllers.ProductController.constructor | src/main/java/com/example/healthcheckapi/controller/ProductController.java:20-24 | the controller works on the given products, users and images tables, and its service shares the users table |
| ProductControllers.ProductController.CreateProduct | src/main/java/com/example/healthcheckapi/controller/ProductController.java:26-43 | status is CreateProductStatus; on 201 one CreatedRow is added and the Location names it; otherwise nothing changes |
| ProductControllers.ProductController.GetProduct | src/main/java/com/example/healthcheckapi/controller/ProductController.java:45-52 | 404 iff the product is missing, else 200 with its view |
| ProductControllers.ProductController.UpdateProductPut | src/main/java/com/example/healthcheckapi/controller/ProductController.java:54-83 | status is PutStatus; on 204 the row becomes the merge of PutRow; otherwise nothing changes |
| ProductControllers.ProductController.UpdateProductPatch | src/main/java/com/example/healthcheckapi/controller/ProductController.java:85-132 | status is PatchStatus; on 204 the row becomes the merge of PatchRow; otherwise nothing changes |
| ProductControllers.ProductController.DeleteProduct | src/main/java/com/example/healthcheckapi/controller/ProductController.java:134-148 | status is DeleteStatus; on 204 exactly that row is removed and every image still refers to a stored product; on every other status, the 400 for a product with images included, nothing changes |
| StorageKeys.StorageExtension | src/main/java/com/example/healthcheckapi/service/S3Service.java:67-71 | "" without a name or a dot; otherwise a suffix of the name that starts at its last '.' and holds no other dot |
| StorageKeys.ObjectKey | src/main/java/com/example/healthcheckapi/service/S3Service.java:67-72 | the key user_{u}/product_{p}/{uuid}{ext}; ObjectKeyDeterminesIds and DistinctUuidsDistinctKeys show it determines owner, product and uuid |
| StorageKeys.ObjectKeyShape | src/main/java/com/example/healthcheckapi/service/S3Service.java:72 | a key is the owner/product prefix, then the uuid, then the extension |
| StorageKeys.NoDotNoExtension | src/main/java/com/example/healthcheckapi/service/S3Service.java:67-72 | a name without a dot gives a key ending in the bare uuid |
| StorageKeys.NoSlashInNumber | src/main/java/com/example/healthcheckapi/service/S3Service.java:72 | a decimal id contains no '/' |
| StorageKeys.SplitAtSlash | src/main/java/com/example/healthcheckapi/service/S3Service.java:72 | a segment free of '/' is recovered from segment + "/" + rest |
| StorageKeys.ObjectKeySegments | src/main/java/com/example/healthcheckapi/service/S3Service.java:72 | a key read segment by segment |
| StorageKeys.ObjectKeyDeterminesIds | src/main/java/com/example/healthcheckapi/service/S3Service.java:72 | equal keys have equal user and product ids: storage is partitioned by owner and product |
| StorageKeys.UuidOfKey | src/main/java/com/example/healthcheckapi/service/S3Service.java:72 | the uuid is the slice of the key between the prefix and the extension |
| StorageKeys.DistinctUuidsDistinctKeys | src/main/java/com/example/healthcheckapi/service/S3Service.java:72 | two uploads with distinct uuids never share a key |
| LocalStorage.LocalPathIsObjectKey | src/main/java/com/example/healthcheckapi/service/LocalStorageService.java:48-64 | the local path has the S3 key format |
| LocalStorage.LocalPath | src/main/java/com/example/healthcheckapi/service/LocalStorageService.java:48-64 | the relative path storeFile returns; LocalPathIsObjectKey shows it equals the S3 key of the same upload |
| LocalStorage.LocalStorageService.constructor | src/main/java/com/example/healthcheckapi/service/LocalStorageService.java:25-33 | an empty directory tree |
| LocalStorage.LocalStorageService.StoreFile | src/main/java/com/example/healthcheckapi/service/LocalStorageService.java:38-65 | on success the content is under the object key, that path is returned and fileExists is true for it; on an I/O failure nothing is returned and no file changes |
| LocalStorage.LocalStorageService.DeleteFile | src/main/java/com/example/healthcheckapi/service/LocalStorageService.java:70-82 | on success fileExists is false for the path and only that file is gone; on failure nothing changes |
| LocalStorage.StoreKeepsOtherProducts | src/main/java/com/example/healthcheckapi/service/LocalStorageService.java:48-64 | a store never touches another product's or another owner's files |
| S3Storage.S3Service.constructor | src/main/java/com/example/healthcheckapi/service/S3Service.java:38-49 | the client exists iff the bucket name is set and not blank |
| S3Storage.S3Service.Upload | src/main/java/com/example/healthcheckapi/service/S3Service.java:59-106 | returns the key and stores the object iff the client exists and the put succeeds; otherwise nothing changes |
| S3Storage.S3Service.Delete | src/main/java/com/example/healthcheckapi/service/S3Service.java:108-144 | removes the object and returns true iff the client exists and the delete succeeds |
| ImageServices.IsValidImageFile | src/main/java/com/example/healthcheckapi/service/ImageService.java:36-53 | a valid file is present, non-empty and named, with an allowed extension |
| ImageServices.ValidationExtension | src/main/java/com/example/healthcheckapi/service/ImageService.java:46-52 | the lower-cased text after the last dot, empty when the last dot is missing or is the first character; ExtensionAfterLastDot and the Rejected lemmas state its cases |
| ImageServices.LastIndexOfIsLastOccurrence | src/main/java/com/example/healthcheckapi/service/ImageService.java:47 | lastIndexOf finds the only occurrence with none after it |
| ImageServices.ValidNameHasImageExtension | src/main/java/com/example/healthcheckapi/service/ImageService.java:46-52 | a name that passes has an image extension after a dot that is not its first character |
| ImageServices.ImageExtensionIsValidName | src/main/java/com/example/healthcheckapi/service/ImageService.java:46-52 | a name with such an extension passes |
| ImageServices.ValidImageFileCharacterized | src/main/java/com/example/healthcheckapi/service/ImageService.java:36-53 | validation is exactly: present, non-empty, named, with jpg, jpeg or png after the last dot, ignoring case |
| ImageServices.ValidFileKeepsImageExtension | src/main/java/com/example/healthcheckapi/service/ImageService.java:32-53 | a valid upload is stored under .jpg, .jpeg or .png, ignoring case |
| ImageServices.UpperCaseExtensionAccepted | src/main/java/com/example/healthcheckapi/service/ImageService.java:36-53 | a non-empty upload named "photo.JPG" passes: the extension is compared ignoring case |
| ImageServices.LastDotDecides | src/main/java/com/example/healthcheckapi/service/ImageService.java:36-53 | a non-empty upload named "a.b.png" passes: only the text after the last dot is compared |
| ImageServices.LeadingDotRejected | src/main/java/com/example/healthcheckapi/service/ImageService.java:36-53 | an upload named ".png" fails: a dot at position 0 leaves no extension |
| ImageServices.MissingDotRejected | src/main/java/com/example/healthcheckapi/service/ImageService.java:36-53 | an upload named "photo" fails |
| ImageServices.OtherExtensionRejected | src/main/java/com/example/healthcheckapi/service/ImageService.java:36-53 | an upload named "photo.gif" fails |
| ImageServices.TrailingDotRejected | src/main/java/com/example/healthcheckapi/service/ImageService.java:36-53 | an upload named "photo.png." fails: the extension after the last dot is empty |
| ImageServices.MissingPartsRejected | src/main/java/com/example/healthcheckapi/service/ImageService.java:36-53 | no file, empty content, or no original name fails whatever else is given |
| ImageServices.ExtensionAfterLastDot | src/main/java/com/example/healthcheckapi/service/ImageService.java:36-53 | once the last dot is known, the compared extension is the lower-cased text after it, or empty when the dot comes first |
| ImageServices.ImageService.constructor | src/main/java/com/example/healthcheckapi/service/ImageService.java:26-30 | storage.type defaults to "s3" |
| ImageServices.ImageService.UsesLocal | src/main/java/com/example/healthcheckapi/service/ImageService.java:56-57 | the local backend is used exactly when the storage type is "local" in any case and that backend exists; OtherBackendUnchanged says the other one is left alone |
| ImageServices.ImageService.Store | src/main/java/com/example/healthcheckapi/service/ImageService.java:56-60 | the backend in use stores the file under the object key iff it accepts; the other backend is untouched |
| ImageServices.ImageService.UploadImage | src/main/java/com/example/healthcheckapi/service/ImageService.java:55-65 | the file is stored iff the backend accepts, and a record pointing at its key is added iff it is also named |
| ImageServices.ImageService.DeleteImage | src/main/java/com/example/healthcheckapi/service/ImageService.java:75-82 | the stored object is removed first; the record is removed iff the backend delete succeeds, and nothing changes otherwise |
| ImageServices.ImageOfAgreesWithImagesOf | src/main/java/com/example/healthcheckapi/service/ImageService.java:67-73 | the single lookup finds exactly the members of the product's list |
| ImageControllers.ImageLocationInjective | src/main/java/com/example/healthcheckapi/controller/ImageController.java:99-102 | distinct images of a product get distinct Location headers |
| ImageControllers.ImageLocation | src/main/java/com/example/healthcheckapi/controller/ImageController.java:101 | the Location of an uploaded image; ImageLocationInjective shows it names one product and one image |
| ImageControllers.ImageAccessStatus | src/main/java/com/example/healthcheckapi/controller/ImageController.java:60-85 | 401 iff no principal; 403 when unverified; 404 iff verified and the product is missing; 200 iff verified owner |
| ImageControllers.UploadStatus | src/main/java/com/example/healthcheckapi/controller/ImageController.java:49-111 | the access status, then 400 for an invalid file, then 500 when the backend fails, else 201 |
| ImageControllers.DeleteImageStatus | src/main/java/com/example/healthcheckapi/controller/ImageController.java:181-238 | the access status, then 404 for an image not of that product, then 500, else 204 |
| ImageControllers.SecondDeleteNotFound | src/main/java/com/example/healthcheckapi/controller/ImageController.java:218-222 | a deleted image gives 404 when deleted again |
| ImageControllers.UploadedImageIsListed | src/main/java/com/example/healthcheckapi/controller/ImageController.java:120-164 | an uploaded image is found by both lookups of its product and by no other product's |
| ImageControllers.ImageController.constructor | src/main/java/com/example/healthcheckapi/controller/ImageController.java:30-37 | the controller and its services share the tables |
| ImageControllers.ImageController.UploadImage | src/main/java/com/example/healthcheckapi/controller/ImageController.java:49-111 | status is UploadStatus; on 201 the file is stored under the owner's and product's key, one record points at it and the Location names it; otherwise nothing changes |
| ImageControllers.ImageController.GetAllImages | src/main/java/com/example/healthcheckapi/controller/ImageController.java:115-140 | 404 iff the product is missing, else 200 with exactly its images |
| ImageControllers.ImageController.GetImageById | src/main/java/com/example/healthcheckapi/controller/ImageController.java:144-177 | 200 iff the product exists and the image belongs to it, with that image; else 404 |
| ImageControllers.ImageController.DeleteImage | src/main/java/com/example/healthcheckapi/controller/ImageController.java:181-238 | status is DeleteImageStatus; on 204 record and object are both gone; otherwise neither changes |
| EmailVerificationFilters.SkippedRequests | src/main/java/com/example/healthcheckapi/config/EmailVerificationFilter.java:55-77 | registration (POST /v1/user), the verify link, anything under /healthz and product reads skip the filter |
| EmailVerificationFilters.CheckedRequests | src/main/java/com/example/healthcheckapi/config/EmailVerificationFilter.java:55-77 | account reads and updates (other than verify) and product writes do not skip the filter |
| EmailVerificationFilters.ShouldSkipFilter | src/main/java/com/example/healthcheckapi/config/EmailVerificationFilter.java:55-77 | the requests the filter lets through unchecked; SkippedRequests and CheckedRequests list both sides |
| EmailVerificationFilters.Blocks | src/main/java/com/example/healthcheckapi/config/EmailVerificationFilter.java:41-49 | a checked request is refused only for an authenticated, non-anonymous caller with a stored, unverified account; BlockedCallersAreUnverified and PassesExactly state both directions |
| EmailVerificationFilters.PassesExactly | src/main/java/com/example/healthcheckapi/config/EmailVerificationFilter.java:24-53 | a request passes iff it is on the skip list, has no authenticated non-anonymous principal, names no stored account, or its caller is verified |
| EmailVerificationFilters.BlockedCallersAreUnverified | src/main/java/com/example/healthcheckapi/config/EmailVerificationFilter.java:41-49 | only unverified callers are blocked |
| EmailVerificationFilters.HttpServletResponse.constructor | src/main/java/com/example/healthcheckapi/config/EmailVerificationFilter.java:24-27 | an untouched response |
| EmailVerificationFilters.EmailVerificationFilter.constructor | src/main/java/com/example/healthcheckapi/config/EmailVerificationFilter.java:20-21 | the filter uses the given UserService |
| EmailVerificationFilters.EmailVerificationFilter.DoFilterInternal | src/main/java/com/example/healthcheckapi/config/EmailVerificationFilter.java:24-53 | the chain continues iff the request is not blocked, leaving the response alone; a blocked one gets 403, JSON and the error body |
| SecurityConfiguration.FirstMatch | src/main/java/com/example/healthcheckapi/config/SecurityConfig.java:28-37 | no rule applies iff none matches; otherwise the access of a matching rule |
| SecurityConfiguration.RulesMatch | src/main/java/com/example/healthcheckapi/config/SecurityConfig.java:30-36 | each of the six rules matches exactly the requests its matcher names: the method when one is given, and the listed patterns |
| SecurityConfiguration.DecisionTable | src/main/java/com/example/healthcheckapi/config/SecurityConfig.java:30-36 | the access of the first matching rule in declaration order, as one case split over method and path; some rule always matches |
| SecurityConfiguration.Authorize | src/main/java/com/example/healthcheckapi/config/SecurityConfig.java:23-41 | only an authenticated caller is ever forbidden; an anonymous one is challenged instead |
| SecurityConfiguration.EveryRequestMatches | src/main/java/com/example/healthcheckapi/config/SecurityConfig.java:36 | anyRequest() makes the table total |
| SecurityConfiguration.HealthProbeIsPublic | src/main/java/com/example/healthcheckapi/config/SecurityConfig.java:30 | /healthz and /healthz/ are open to any method and caller |
| SecurityConfiguration.PublicEndpoints | src/main/java/com/example/healthcheckapi/config/SecurityConfig.java:31-32 | registration and reading one product are open |
| SecurityConfiguration.UserEndpointsNeedCredentials | src/main/java/com/example/healthcheckapi/config/SecurityConfig.java:34 | /v1/user/{x} challenges an anonymous caller and lets an authenticated one through |
| SecurityConfiguration.UserVerifyNeedsCredentials | src/main/java/com/example/healthcheckapi/config/SecurityConfig.java:34 | the verification link needs credentials as the table is written |
| SecurityConfiguration.ProductWritesNeedCredentials | src/main/java/com/example/healthcheckapi/config/SecurityConfig.java:35 | product writes need credentials and then pass |
| SecurityConfiguration.ImageRoutesAreDenied | src/main/java/com/example/healthcheckapi/config/SecurityConfig.java:32-36 | every image route falls to denyAll: 401 when anonymous, 403 when authenticated |
| SecurityConfiguration.AnonymousAccessIsNarrow | src/main/java/com/example/healthcheckapi/config/SecurityConfig.java:30-36 | an anonymous request passes only for the probe, registration or reading one product |
| ExceptionHandling.StatusFor | src/main/java/com/example/healthcheckapi/exception/GlobalExceptionHandler.java:21-82 | every handled failure gets a status, and only unhandled ones get none |
| ExceptionHandling.ClientErrors | src/main/java/com/example/healthcheckapi/exception/GlobalExceptionHandler.java:21-49 | invalid arguments, unreadable bodies and integrity violations give 400, media type 415, bad credentials 401, access denied 403 |
| ExceptionHandling.DatabaseOutagesAreUnavailable | src/main/java/com/example/healthcheckapi/exception/GlobalExceptionHandler.java:65-80 | a lost connection or transaction gives 503 |
| ExceptionHandling.DataAccessStatus | src/main/java/com/example/healthcheckapi/exception/GlobalExceptionHandler.java:74-82 | the general data-access handler alone: 503 unless the exception is an integrity violation |
| ExceptionHandling.DatabaseUnreachable | src/main/java/com/example/healthcheckapi/exception/GlobalExceptionHandler.java:52-80 | the failures that mean the database cannot be reached; HandledStatusesAreErrors shows they are exactly the 503s |
| ExceptionHandling.AuthenticationOutage | src/main/java/com/example/healthcheckapi/exception/GlobalExceptionHandler.java:52-62 | a data-access cause with any message, or any cause whose message contains "Connection" anywhere, gives 503; no cause gives 401 |
| ExceptionHandling.ConnectionMatchIsCaseSensitive | src/main/java/com/example/healthcheckapi/exception/GlobalExceptionHandler.java:55-58 | the message test is case-sensitive: "connection refused" from a non-database cause is 401 |
| ExceptionHandling.DataAccessResolutionAgrees | src/main/java/com/example/healthcheckapi/exception/GlobalExceptionHandler.java:26-82 | each data-access kind resolves to its most specific handler's status |
| ExceptionHandling.HandledStatusesAreErrors | src/main/java/com/example/healthcheckapi/exception/GlobalExceptionHandler.java:21-82 | a handled failure is never answered 500; it is 503 exactly when the database is unreachable, and a 4xx client error otherwise |
| HealthControllers.HeaderValues | src/main/java/com/example/healthcheckapi/controller/HealthController.java:74-85 | the values of a header are exactly those of the entries with that name |
| HealthControllers.LookupInResponse | src/main/java/com/example/healthcheckapi/controller/HealthController.java:76-82 | a lookup in a built response is the fixed headers' values then the extra ones |
| HealthControllers.LookupInExtra | src/main/java/com/example/healthcheckapi/controller/HealthController.java:80-82 | Allow: GET is added only to a 405 |
| HealthControllers.FixedHeaderOnce | src/main/java/com/example/healthcheckapi/controller/HealthController.java:76-79 | every response, whatever its status, carries Cache-Control: no-cache, no-store, must-revalidate, Pragma: no-cache and X-Content-Type-Options: nosniff, each exactly once |
| HealthControllers.AllowOnlyOnMethodNotAllowed | src/main/java/com/example/healthcheckapi/controller/HealthController.java:74-85 | Allow: GET is present exactly on a 405 response, once |
| HealthControllers.HandleHealthCheck | src/main/java/com/example/healthcheckapi/controller/HealthController.java:26-72 | 405 iff not GET; 400 iff GET with a query, a body or a transfer encoding; 200 iff valid and healthy; 503 iff valid and the probe fails or throws |
| HealthControllers.ValidationPrecedesProbe | src/main/java/com/example/healthcheckapi/controller/HealthController.java:32-50 | a rejected request never depends on the probe |
| HealthControllers.MethodCheckedFirst | src/main/java/com/example/healthcheckapi/controller/HealthController.java:32-36 | a POST is 405 with Allow: GET whatever else is wrong with it |
| HealthControllers.PassesValidation | src/main/java/com/example/healthcheckapi/controller/HealthController.java:38-50 | no query string, no positive Content-Length and no Transfer-Encoding header; ValidationPrecedesProbe shows the probe runs only then |

## Left out

- Strings are sequences of characters. Case folding handles ASCII only, lengths count characters rather than UTF-16 units, and the `@Email` check is approximated by `UserEntity.EmailShaped` (one '@' with text on both sides).
- The two `Instant.now()` reads of each `@PrePersist` hook are modelled as one `now`.
- UUID generation, the clock and BCrypt are parameters. UserService, UserRepository and ProductRepository are not part of this model; they are modelled only as far as their callers use them.
- `UserControllers.UserController.UpdateUser` takes the body as a map of strings. Non-string JSON values and unreadable bodies are left to `ExceptionHandling`.
- Bean validation that runs at flush time is not modelled: a PATCH with a blank name, for example, is saved in the model. The 500 that an `auth.getName()` of null raises is also left out.
- `ProductControllers.ProductController.DeleteProduct` checks the images table directly. The real code attempts the delete, and the product_id foreign key rejects it at flush time. The model returns the resulting 400 without modelling the flush or the rollback.
- HealthControllers.HandleHealthCheck: the mapping names no method, so Spring answers OPTIONS on /healthz itself (200 with an Allow header) before the handler runs. Neither the 405 rule nor `HealthControllers.FixedHeaderOnce` describes that response.
- Database failures are modelled only for `UserControllers.UserController.VerifyEmail` (a rolled-back transaction). Elsewhere, the exceptions that end in 500 are modelled only as storage faults.
- SNS publishing, logging, MDC, Micrometer metrics and the S3 timer are left out: they do not affect the response. Publishing is a fault parameter whose outcome is ignored.
- Concurrency is left out: races between the SKU or username check and the unique constraint, and two requests redeeming one token.
- Spring Data's failure when a lookup by email finds two open tokens is left out: the model takes "some open token" as the answer.
- `ImageControllers.ImageController.GetAllImages` returns the images as a map keyed by image id. The order of the JSON list is not modelled.
- In local storage, the upload directory join, directory creation, path traversal and partial writes are left out. A store either succeeds completely or fails.
- Security: Basic authentication with bad credentials on a permitAll route is left out (a 401 from the authentication filter). `SecurityConfiguration.Authorize` depends only on whether the caller is authenticated.
- Path patterns: trailing-slash matching is left out and `*` is one segment without '/'. `HttpMethod` matching is exact string equality.
- S3 region and credentials are left out. Blank means every character is at most ' '.
- HealthCheckService is reduced to its outcome (healthy, unhealthy or throwing), given as a `HealthResult`.
- `isEmailVerified` is modelled once, in `UserServices.UserService.IsEmailVerified`, although UserController and ImageController each hold a private copy.
- ImageServices.ImageService.UploadImage: an upload with no file name is stored, and its record is then refused by the non-null file_name column. The model adds no record in that case; the controller never reaches it, because validation comes first.
