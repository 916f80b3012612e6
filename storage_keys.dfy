/**
 * Where an uploaded image is stored: the extension both storage backends
 * carry over from the display name, and the object key
 * user_{userId}/product_{productId}/{uuid}{ext}, with the properties that
 * make the key a sound partition of the store.
 */
module StorageKeys {
  import opened Common

  /**
   * The extension a stored object keeps: the display name from its last '.'
   * on (the dot included), or "" when there is no name or no dot.
   */
  function StorageExtension(name: Option<string>): (ext: string)
    ensures name.None? || '.' !in name.value ==> ext == ""
    ensures name.Some? && '.' in name.value ==>
      && |ext| > 0 && ext[0] == '.' && '.' !in ext[1..]
      && |ext| <= |name.value| && name.value[|name.value| - |ext|..] == ext
  {
    if name.Some? && '.' in name.value then name.value[LastIndexOf(name.value, '.')..] else ""
  }

  /** The part of a key fixed by the owner and the product: user_{userId}/product_{productId}/. */
  function KeyPrefix(userId: nat, productId: nat): string
  {
    "user_" + NatToString(userId) + "/product_" + NatToString(productId) + "/"
  }

  /** The S3 key format user_%d/product_%d/%s%s. */
  function ObjectKey(userId: nat, productId: nat, uuid: string, name: Option<string>): string
  {
    "user_" + NatToString(userId) + "/product_" + NatToString(productId) + "/" + uuid + StorageExtension(name)
  }

  /** A key starts with its prefix and ends with uuid and extension, so the prefix depends only on the two ids. */
  lemma ObjectKeyShape(userId: nat, productId: nat, uuid: string, name: Option<string>)
    ensures ObjectKey(userId, productId, uuid, name) == KeyPrefix(userId, productId) + uuid + StorageExtension(name)
    ensures StartsWith(ObjectKey(userId, productId, uuid, name), KeyPrefix(userId, productId))
  {
    var prefix := KeyPrefix(userId, productId);
    ConcatStartsWith(prefix, uuid + StorageExtension(name));
    assert prefix + uuid + StorageExtension(name) == prefix + (uuid + StorageExtension(name));
  }

  /** A name without a dot gives a key whose last segment is the bare uuid. */
  lemma NoDotNoExtension(userId: nat, productId: nat, uuid: string, name: Option<string>)
    requires name.None? || '.' !in name.value
    ensures ObjectKey(userId, productId, uuid, name) == KeyPrefix(userId, productId) + uuid
  {
    ObjectKeyShape(userId, productId, uuid, name);
  }

  /** Decimal ids contain no '/'. */
  lemma NoSlashInNumber(n: nat)
    ensures '/' !in NatToString(n)
  {
    var s := NatToString(n);
    assert forall i :: 0 <= i < |s| ==> s[i] != '/';
  }

  /** Splitting at the first '/': a segment without '/' is recovered from a + ("/" + x). */
  lemma SplitAtSlash(a: string, x: string, b: string, y: string)
    requires '/' !in a && '/' !in b
    requires a + ("/" + x) == b + ("/" + y)
    ensures a == b && x == y
  {
    var s := a + ("/" + x);
    var t := b + ("/" + y);
    assert s[|a|] == '/' && t[|b|] == '/';
    assert forall i :: 0 <= i < |a| ==> s[i] == a[i] != '/';
    assert forall i :: 0 <= i < |b| ==> t[i] == b[i] != '/';
    assert |a| == |b|;
    assert a == s[..|a|] && b == t[..|b|];
    assert x == s[|a| + 1..] && y == t[|b| + 1..];
  }

  /** Regrouping a concatenation to the right. */
  lemma Regroup(a: string, b: string, c: string)
    ensures a + b + c == a + (b + c)
  {
  }

  /** A key read segment by segment from the left: user_, the user id, '/', product_, the product id, '/', the rest. */
  lemma ObjectKeySegments(userId: nat, productId: nat, uuid: string, name: Option<string>)
    ensures var u, p, x := NatToString(userId), NatToString(productId), uuid + StorageExtension(name);
      ObjectKey(userId, productId, uuid, name) == "user_" + (u + ("/" + ("product_" + (p + ("/" + x)))))
  {
    var u, p, ext := NatToString(userId), NatToString(productId), StorageExtension(name);
    var x := uuid + ext;
    var r := p + ("/" + x);
    Regroup("user_" + u + "/product_" + p + "/", uuid, ext);
    Regroup("user_" + u + "/product_" + p, "/", x);
    Regroup("user_" + u + "/product_", p, "/" + x);
    Regroup("user_" + u, "/product_", r);
    Regroup("/", "product_", r);
    assert "/" + "product_" == "/product_";
    Regroup("user_", u, "/product_" + r);
  }

  /** Keys partition storage by owner and product: equal keys have equal user and product ids. */
  lemma ObjectKeyDeterminesIds(u1: nat, p1: nat, x1: string, n1: Option<string>,
                               u2: nat, p2: nat, x2: string, n2: Option<string>)
    requires ObjectKey(u1, p1, x1, n1) == ObjectKey(u2, p2, x2, n2)
    ensures u1 == u2 && p1 == p2
  {
    var tail1 := NatToString(p1) + ("/" + (x1 + StorageExtension(n1)));
    var tail2 := NatToString(p2) + ("/" + (x2 + StorageExtension(n2)));
    ObjectKeySegments(u1, p1, x1, n1);
    ObjectKeySegments(u2, p2, x2, n2);
    PrefixCancels("user_", NatToString(u1) + ("/" + ("product_" + tail1)), NatToString(u2) + ("/" + ("product_" + tail2)));
    NoSlashInNumber(u1);
    NoSlashInNumber(u2);
    SplitAtSlash(NatToString(u1), "product_" + tail1, NatToString(u2), "product_" + tail2);
    NatToStringInjective(u1, u2);
    PrefixCancels("product_", tail1, tail2);
    NoSlashInNumber(p1);
    NoSlashInNumber(p2);
    SplitAtSlash(NatToString(p1), x1 + StorageExtension(n1), NatToString(p2), x2 + StorageExtension(n2));
    NatToStringInjective(p1, p2);
  }

  /** The uuid sits between the prefix and the extension of its key. */
  lemma UuidOfKey(userId: nat, productId: nat, uuid: string, name: Option<string>)
    ensures var k := ObjectKey(userId, productId, uuid, name);
      |KeyPrefix(userId, productId)| + |StorageExtension(name)| <= |k| &&
      k[|KeyPrefix(userId, productId)|..|k| - |StorageExtension(name)|] == uuid
  {
    ObjectKeyShape(userId, productId, uuid, name);
  }

  /** Two uploads of the same display name under distinct uuids get distinct keys. */
  lemma DistinctUuidsDistinctKeys(userId: nat, productId: nat, x1: string, x2: string, name: Option<string>)
    requires x1 != x2
    ensures ObjectKey(userId, productId, x1, name) != ObjectKey(userId, productId, x2, name)
  {
    UuidOfKey(userId, productId, x1, name);
    UuidOfKey(userId, productId, x2, name);
  }
}
