/**
 * S3Service: image objects in one S3 bucket, keyed
 * user_{userId}/product_{productId}/{uuid}{ext}. The bucket is a map from
 * key to object bytes; the client exists only when a bucket name is
 * configured.
 */
module S3Storage {
  import opened Common
  import opened StorageKeys

  class S3Service {
    /** init built an S3 client: the configured bucket name is present and not blank. */
    const initialized: bool
    /** The bucket's objects, by key. */
    var objects: map<string, Bytes>

    /** Construction followed by init: a missing or blank bucket name leaves the client null. */
    constructor (bucketName: Option<string>)
      ensures initialized <==> bucketName.Some? && !IsBlank(bucketName.value)
      ensures objects == map[]
    {
      initialized := bucketName.Some? && !IsBlank(bucketName.value);
      objects := map[];
    }

    /**
     * upload: puts the file under its key and returns the key. Without a
     * client it throws before any put; putFails stands for an S3Exception
     * from putObject, rethrown as an IOException. On either failure no
     * key is returned and the bucket is unchanged.
     */
    method Upload(content: Bytes, originalName: Option<string>, userId: nat, productId: nat, uuid: string, putFails: bool)
      returns (key: Option<string>)
      modifies this
      ensures key.Some? <==> initialized && !putFails
      ensures key.Some? ==> key.value == ObjectKey(userId, productId, uuid, originalName)
      ensures objects == if key.Some? then old(objects)[key.value := content] else old(objects)
    {
      if !initialized {
        return None;
      }
      var ext := "";
      if originalName.Some? && '.' in originalName.value {
        ext := originalName.value[LastIndexOf(originalName.value, '.')..];
      }
      var k := "user_" + NatToString(userId) + "/product_" + NatToString(productId) + "/" + uuid + ext;
      if putFails {
        return None;
      }
      objects := objects[k := content];
      return Some(k);
    }

    /**
     * delete: removes the object under key (S3 deletes a missing key
     * without complaint). It fails without a client, or when deleteObject
     * throws (deleteFails); then the bucket is unchanged.
     */
    method Delete(key: string, deleteFails: bool) returns (ok: bool)
      modifies this
      ensures ok <==> initialized && !deleteFails
      ensures objects == if ok then old(objects) - {key} else old(objects)
    {
      if !initialized || deleteFails {
        return false;
      }
      objects := objects - {key};
      return true;
    }
  }

}
