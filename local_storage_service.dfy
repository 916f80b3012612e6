/**
 * LocalStorageService: image files kept under the upload directory, at
 * user_{userId}/product_{productId}/{uuid}{ext}. The directory tree is a map
 * from the path relative to the upload directory to the file's bytes.
 */
module LocalStorage {
  import opened Common
  import opened StorageKeys

  /** The relative path storeFile returns: userDir + "/" + productDir + "/" + uniqueFilename. */
  function LocalPath(userId: nat, productId: nat, uniqueFilename: string): string
  {
    var userDir := "user_" + NatToString(userId);
    var productDir := "product_" + NatToString(productId);
    userDir + "/" + productDir + "/" + uniqueFilename
  }

  /** The local layout is the S3 key layout: the same upload lands at the same relative path in either backend. */
  lemma LocalPathIsObjectKey(userId: nat, productId: nat, uuid: string, name: Option<string>)
    ensures LocalPath(userId, productId, uuid + StorageExtension(name)) == ObjectKey(userId, productId, uuid, name)
  {
    var u, p := NatToString(userId), NatToString(productId);
    var ext := StorageExtension(name);
    calc {
      LocalPath(userId, productId, uuid + ext);
      ("user_" + u) + "/" + ("product_" + p) + "/" + (uuid + ext);
      { assert ("user_" + u) + "/" + ("product_" + p) == "user_" + u + "/product_" + p; }
      "user_" + u + "/product_" + p + "/" + uuid + ext;
    }
  }

  class LocalStorageService {
    /** The files under the upload directory, by relative path. */
    var files: map<string, Bytes>

    constructor ()
      ensures files == map[]
    {
      files := map[];
    }

    /**
     * storeFile: writes the upload under user_{userId}/product_{productId}/,
     * named by a fresh uuid and the original extension, replacing any file
     * already there, and returns the relative path. ioFails stands for an
     * IOException from creating the directories or copying the stream; then
     * nothing is returned and no file is written.
     */
    method StoreFile(content: Bytes, originalName: Option<string>, userId: nat, productId: nat, uuid: string, ioFails: bool)
      returns (path: Option<string>)
      modifies this
      ensures path.None? <==> ioFails
      ensures path.Some? ==> path.value == ObjectKey(userId, productId, uuid, originalName)
      ensures files == if ioFails then old(files) else old(files)[ObjectKey(userId, productId, uuid, originalName) := content]
      ensures path.Some? ==> FileExists(path.value)
    {
      if ioFails {
        return None;
      }
      var fileExtension := "";
      if originalName.Some? && '.' in originalName.value {
        fileExtension := originalName.value[LastIndexOf(originalName.value, '.')..];
      }
      var uniqueFilename := uuid + fileExtension;
      LocalPathIsObjectKey(userId, productId, uuid, originalName);
      var relative := LocalPath(userId, productId, uniqueFilename);
      files := files[relative := content];
      return Some(relative);
    }

    /**
     * deleteFile: deleteIfExists on the path, so deleting a missing file
     * succeeds. ioFails stands for an IOException; then nothing is removed.
     */
    method DeleteFile(filePath: string, ioFails: bool) returns (ok: bool)
      modifies this
      ensures ok <==> !ioFails
      ensures files == if ok then old(files) - {filePath} else old(files)
      ensures ok ==> !FileExists(filePath)
    {
      if ioFails {
        return false;
      }
      files := files - {filePath};
      return true;
    }

    /** fileExists: a file is stored at that relative path. */
    function FileExists(filePath: string): (r: bool)
      reads this
      ensures r <==> filePath in files
    {
      filePath in files
    }
  }

  /** Storing a file leaves every file of another user or product as it was. */
  lemma StoreKeepsOtherProducts(files: map<string, Bytes>, content: Bytes, name: Option<string>,
                                userId: nat, productId: nat, uuid: string,
                                otherUser: nat, otherProduct: nat, otherUuid: string, otherName: Option<string>)
    requires otherUser != userId || otherProduct != productId
    ensures var other := ObjectKey(otherUser, otherProduct, otherUuid, otherName);
      var after := files[ObjectKey(userId, productId, uuid, name) := content];
      (other in after <==> other in files) && (other in files ==> after[other] == files[other])
  {
    if ObjectKey(otherUser, otherProduct, otherUuid, otherName) == ObjectKey(userId, productId, uuid, name) {
      ObjectKeyDeterminesIds(otherUser, otherProduct, otherUuid, otherName, userId, productId, uuid, name);
    }
  }
}
