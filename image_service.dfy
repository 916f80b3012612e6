/**
 * ImageService: which uploads count as images, and the two-step upload and
 * delete that keep the storage backend and the images table in step. The
 * backend is the local directory tree when storage.type is "local" (in any
 * case) and a LocalStorageService exists, and the S3 bucket otherwise.
 */
module ImageServices {
  import opened Common
  import opened ProductEntity
  import opened Repositories
  import opened StorageKeys
  import opened LocalStorage
  import opened S3Storage

  /** A multipart upload: its original file name (possibly absent) and its bytes. */
  datatype MultipartFile = MultipartFile(originalName: Option<string>, content: Bytes)

  /** The allowed extensions, compared after lower-casing. */
  const AllowedExtensions: seq<string> := ["jpg", "jpeg", "png"]

  /** The extension isValidImageFile compares: the lower-cased text after the last '.', or "" when that '.' is missing or first. */
  function ValidationExtension(name: string): string
  {
    var lastDotIndex := LastIndexOf(name, '.');
    if lastDotIndex > 0 then ToLower(name[lastDotIndex + 1..]) else ""
  }

  /** isValidImageFile: a present, non-empty upload with a name whose extension is allowed. */
  function IsValidImageFile(file: Option<MultipartFile>): (r: bool)
    ensures r ==> file.Some? && |file.value.content| > 0 && file.value.originalName.Some?
    ensures r ==> ValidationExtension(file.value.originalName.value) in AllowedExtensions
  {
    if file.None? || |file.value.content| == 0 then false
    else if file.value.originalName.None? then false
    else ValidationExtension(file.value.originalName.value) in AllowedExtensions
  }

  /** The name has an allowed extension after a '.' that is not its first character and after which no '.' follows. */
  predicate HasImageExtension(name: string)
  {
    exists i :: 0 < i < |name| && name[i] == '.' && '.' !in name[i + 1..] && ToLower(name[i + 1..]) in AllowedExtensions
  }

  /** lastIndexOf finds the only '.' with none after it. */
  lemma LastIndexOfIsLastOccurrence(s: string, c: char, j: int)
    requires 0 <= j < |s| && s[j] == c && c !in s[j + 1..]
    ensures LastIndexOf(s, c) == j
  {
    var i := LastIndexOf(s, c);
    assert forall k :: j < k < |s| ==> s[k] == s[j + 1..][k - j - 1] != c;
    assert forall k :: i < k < |s| ==> s[k] == s[i + 1..][k - i - 1] != c;
  }

  /** A valid name has an image extension after its last '.'. */
  lemma ValidNameHasImageExtension(name: string)
    requires ValidationExtension(name) in AllowedExtensions
    ensures HasImageExtension(name)
  {
    var d := LastIndexOf(name, '.');
    assert 0 < d && name[d] == '.';
    var tail := name[d + 1..];
    assert '.' !in tail by {
      assert forall k :: 0 <= k < |tail| ==> tail[k] == name[d + 1 + k];
    }
    assert ToLower(name[d + 1..]) in AllowedExtensions;
  }

  /** A name with an image extension passes validation. */
  lemma ImageExtensionIsValidName(name: string)
    requires HasImageExtension(name)
    ensures ValidationExtension(name) in AllowedExtensions
  {
    var i :| 0 < i < |name| && name[i] == '.' && '.' !in name[i + 1..] && ToLower(name[i + 1..]) in AllowedExtensions;
    LastIndexOfIsLastOccurrence(name, '.', i);
  }

  /** Validation, stated without lastIndexOf: exactly the non-empty named uploads with an image extension. */
  lemma ValidImageFileCharacterized(file: Option<MultipartFile>)
    ensures IsValidImageFile(file) <==>
      file.Some? && |file.value.content| > 0 && file.value.originalName.Some? &&
      HasImageExtension(file.value.originalName.value)
  {
    if file.Some? && file.value.originalName.Some? {
      var name := file.value.originalName.value;
      if HasImageExtension(name) {
        ImageExtensionIsValidName(name);
      }
      if ValidationExtension(name) in AllowedExtensions {
        ValidNameHasImageExtension(name);
      }
    }
  }

  /** Lower-casing keeps a leading '.'. */
  lemma LowerDotted(t: string)
    ensures ToLower(['.'] + t) == ['.'] + ToLower(t)
  {
    assert forall i :: 0 <= i < |t| ==> (['.'] + t)[i + 1] == t[i];
  }

  /** A '.' before an allowed extension is an allowed stored extension. */
  lemma DottedAllowed(t: string)
    requires t in AllowedExtensions
    ensures ['.'] + t in [".jpg", ".jpeg", ".png"]
  {
    assert ['.'] + "jpg" == ".jpg" && ['.'] + "jpeg" == ".jpeg" && ['.'] + "png" == ".png";
  }

  /** A valid upload is stored under an extension that is, ignoring case, .jpg, .jpeg or .png. */
  lemma ValidFileKeepsImageExtension(file: Option<MultipartFile>)
    requires IsValidImageFile(file)
    ensures ToLower(StorageExtension(file.value.originalName)) in [".jpg", ".jpeg", ".png"]
  {
    var name := file.value.originalName.value;
    var d := LastIndexOf(name, '.');
    assert d > 0 && '.' in name;
    var ext := StorageExtension(file.value.originalName);
    assert ext == ['.'] + name[d + 1..] by {
      assert ext == name[d..];
    }
    LowerDotted(name[d + 1..]);
    DottedAllowed(ToLower(name[d + 1..]));
  }

  /** The extension validation reads, once the last '.' is known. */
  lemma ExtensionAfterLastDot(name: string, d: nat)
    requires d < |name| && name[d] == '.' && '.' !in name[d + 1..]
    ensures ValidationExtension(name) == if d > 0 then ToLower(name[d + 1..]) else ""
  {
    LastIndexOfIsLastOccurrence(name, '.', d);
  }

  /** Validation ignores the case of the extension: "photo.JPG" passes. */
  lemma UpperCaseExtensionAccepted(content: Bytes)
    requires |content| > 0
    ensures IsValidImageFile(Some(MultipartFile(Some("photo.JPG"), content)))
  {
    assert ValidationExtension("photo.JPG") == "jpg" by {
      assert "photo.JPG"[6..] == "JPG";
      ExtensionAfterLastDot("photo.JPG", 5);
    }
  }

  /** Only the last '.' counts: "a.b.png" passes. */
  lemma LastDotDecides(content: Bytes)
    requires |content| > 0
    ensures IsValidImageFile(Some(MultipartFile(Some("a.b.png"), content)))
  {
    assert ValidationExtension("a.b.png") == "png" by {
      assert "a.b.png"[4..] == "png";
      ExtensionAfterLastDot("a.b.png", 3);
    }
  }

  /** A name whose only '.' is its first character fails: ".png" is rejected. */
  lemma LeadingDotRejected(content: Bytes)
    ensures !IsValidImageFile(Some(MultipartFile(Some(".png"), content)))
  {
    assert ValidationExtension(".png") == "" by {
      assert ".png"[1..] == "png";
      ExtensionAfterLastDot(".png", 0);
    }
  }

  /** A name without a '.' fails: "photo" is rejected. */
  lemma MissingDotRejected(content: Bytes)
    ensures !IsValidImageFile(Some(MultipartFile(Some("photo"), content)))
  {
    assert ValidationExtension("photo") == "" by {
      assert '.' !in "photo";
    }
  }

  /** Another extension fails: "photo.gif" is rejected. */
  lemma OtherExtensionRejected(content: Bytes)
    ensures !IsValidImageFile(Some(MultipartFile(Some("photo.gif"), content)))
  {
    assert ValidationExtension("photo.gif") == "gif" by {
      assert "photo.gif"[6..] == "gif";
      ExtensionAfterLastDot("photo.gif", 5);
    }
    assert "gif" !in AllowedExtensions by {
      assert "gif"[0] == 'g' && "jpg"[0] == 'j' && "jpeg"[0] == 'j' && "png"[0] == 'p';
    }
  }

  /** A trailing '.' leaves an empty extension: "photo.png." is rejected. */
  lemma TrailingDotRejected(content: Bytes)
    ensures !IsValidImageFile(Some(MultipartFile(Some("photo.png."), content)))
  {
    assert ValidationExtension("photo.png.") == "" by {
      assert "photo.png."[10..] == "";
      ExtensionAfterLastDot("photo.png.", 9);
    }
  }

  /** No file, empty content or no name fails whatever the name. */
  lemma MissingPartsRejected(name: Option<string>, content: Bytes)
    ensures !IsValidImageFile(None)
    ensures !IsValidImageFile(Some(MultipartFile(name, [])))
    ensures !IsValidImageFile(Some(MultipartFile(None, content)))
  {
  }

  class ImageService {
    const images: ImageRepository
    const s3: S3Service
    const local: LocalStorageService?
    const storageType: string

    /** storageType defaults to "s3" when storage.type is not configured. */
    constructor (images: ImageRepository, s3: S3Service, local: LocalStorageService?, storageType: Option<string>)
      ensures this.images == images && this.s3 == s3 && this.local == local
      ensures this.storageType == storageType.GetOr("s3")
    {
      this.images := images;
      this.s3 := s3;
      this.local := local;
      this.storageType := storageType.GetOr("s3");
    }

    /** Files go to the local directory tree exactly when storage.type is "local", ignoring case, and the local service exists. */
    predicate UsesLocal()
    {
      EqualsIgnoreCase("local", storageType) && local != null
    }

    /** The objects of the backend in use, by key. */
    ghost function Stored(): map<string, Bytes>
      reads s3, local
    {
      if UsesLocal() then local.files else s3.objects
    }

    /** The backend in use accepts a write or a delete unless the environment fails it. */
    predicate BackendAccepts(fault: bool)
    {
      if UsesLocal() then !fault else s3.initialized && !fault
    }

    /** The backend not in use is left as it was. */
    twostate predicate OtherBackendUnchanged()
      reads s3, local
    {
      if UsesLocal() then s3.objects == old(s3.objects) else local != null ==> local.files == old(local.files)
    }

    /** storeFile or upload on the backend in use; the path is the object key on success. */
    method Store(file: MultipartFile, userId: nat, productId: nat, uuid: string, fault: bool)
      returns (path: Option<string>)
      modifies s3, local
      ensures path.Some? <==> BackendAccepts(fault)
      ensures path.Some? ==> path.value == ObjectKey(userId, productId, uuid, file.originalName)
      ensures Stored() == if path.Some? then old(Stored())[path.value := file.content] else old(Stored())
      ensures OtherBackendUnchanged()
    {
      if EqualsIgnoreCase("local", storageType) && local != null {
        path := local.StoreFile(file.content, file.originalName, userId, productId, uuid, fault);
      } else {
        path := s3.Upload(file.content, file.originalName, userId, productId, uuid, fault);
      }
    }

    /**
     * uploadImage: the file goes to the backend first, under
     * user_{userId}/product_{productId}/{uuid}{ext}; then a record with the
     * original name, that path and the product is saved. On a backend
     * failure nothing is written; an upload without a name is stored but
     * its record is refused by the non-null file_name column.
     */
    method UploadImage(file: MultipartFile, product: Product, userId: nat, uuid: string, now: Instant, fault: bool)
      returns (id: Option<nat>)
      modifies images, s3, local
      requires images.Valid() && product.id.Some?
      ensures images.Valid()
      ensures var key := ObjectKey(userId, product.id.value, uuid, file.originalName);
        Stored() == if BackendAccepts(fault) then old(Stored())[key := file.content] else old(Stored())
      ensures OtherBackendUnchanged()
      ensures id.Some? <==> BackendAccepts(fault) && file.originalName.Some?
      ensures id.Some? ==>
        && id.value == old(images.nextId)
        && images.rows == old(images.rows)[id.value := Image(file.originalName.value, now,
                                          ObjectKey(userId, product.id.value, uuid, file.originalName), product.id.value)]
      ensures id.None? ==> images.rows == old(images.rows)
    {
      var path := Store(file, userId, product.id.value, uuid, fault);
      if path.None? || file.originalName.None? {
        return None;
      }
      var imageId := images.Insert(file.originalName.value, path.value, product.id.value, now);
      return Some(imageId);
    }

    /**
     * deleteImage: the stored object goes first, then the record. When the
     * backend fails the record stays, so an image never loses its file
     * while its record remains.
     */
    method DeleteImage(imageId: nat, fault: bool) returns (ok: bool)
      modifies images`rows, s3, local
      requires images.Valid() && imageId in images.rows
      ensures images.Valid()
      ensures ok <==> BackendAccepts(fault)
      ensures Stored() == if ok then old(Stored()) - {old(images.rows[imageId].path)} else old(Stored())
      ensures OtherBackendUnchanged()
      ensures images.rows == if ok then old(images.rows) - {imageId} else old(images.rows)
    {
      var path := images.rows[imageId].path;
      if EqualsIgnoreCase("local", storageType) && local != null {
        ok := local.DeleteFile(path, fault);
      } else {
        ok := s3.Delete(path, fault);
      }
      if !ok {
        return;
      }
      images.Delete(imageId);
    }
  }

  /** findByImageIdAndProduct_Id finds exactly the members of findByProduct_Id. */
  lemma ImageOfAgreesWithImagesOf(rows: map<nat, Image>, imageId: nat, productId: nat)
    ensures ImageOf(rows, imageId, productId).Some? <==> imageId in ImagesOf(rows, productId)
    ensures imageId in ImagesOf(rows, productId) ==> ImageOf(rows, imageId, productId).value == ImagesOf(rows, productId)[imageId]
  {
  }
}
