/**
 * Object locator (apiHelpers/signedUrls.ts): the storage key of an object
 * and the three wrappers around the object store that check a zone's
 * configuration before calling it. The object store itself is foreign: its
 * contents are a value handed in, and its URL signing primitives are
 * uninterpreted functions.
 */
module SignedUrls {
  import opened Wrappers
  import opened JsStrings
  import opened Types

  /** The `{uri, credentials}` pair handed to the object store. */
  datatype Bucket = Bucket(uri: string, credentials: string)

  /**
   * What the object store holds: for each (bucket uri, object key) that
   * exists, the size it reports (`None` when it reports none).
   */
  datatype ObjectStore = ObjectStore(objects: map<(string, string), Option<int>>)

  /** The store's signing primitives, `getSignedDownloadUrl` and `getSignedUploadUrl`. */
  datatype Signer = Signer(downloadUrl: (Bucket, string, int) -> string, uploadUrl: (Bucket, string) -> string)

  /** Validity of an issued download URL, in seconds. */
  const DownloadUrlTtlSeconds: int := 60 * 60

  /** The only supported hash algorithm. */
  const Sha1Alg: string := "sha1"

  /** What `joinKeys(a, b)` puts in front of a non-empty `b`. */
  function JoinPrefix(a: string): (r: string)
    ensures r == "" || r[|r| - 1] == '/'
  {
    if a == "" then "" else if a[|a| - 1] == '/' then a else a + "/"
  }

  /** `joinKeys`: join two key segments with exactly one "/" between them, unless either is empty. */
  function JoinKeys(a: string, b: string): (r: string)
    ensures b != "" ==> r == JoinPrefix(a) + b
    ensures b == "" ==> r == a
  {
    if a == "" then b
    else if b == "" then a
    else if EndsWith(a, "/") then a + b
    else a + "/" + b
  }

  /** The four cases of `joinKeys` as the gateway lists them. */
  lemma JoinKeysCases(a: string, b: string)
    ensures a == "" ==> JoinKeys(a, b) == b
    ensures a != "" && b == "" ==> JoinKeys(a, b) == a
    ensures a != "" && b != "" && EndsWith(a, "/") ==> JoinKeys(a, b) == a + b
    ensures a != "" && b != "" && !EndsWith(a, "/") ==> JoinKeys(a, b) == a + "/" + b
  {
  }

  /** The three shard directories `${h[0]}${h[1]}/${h[2]}${h[3]}/${h[4]}${h[5]}/`, including what they print for a short hash. */
  function Shards(h: string): string {
    CharAt(h, 0) + CharAt(h, 1) + "/" + CharAt(h, 2) + CharAt(h, 3) + "/" + CharAt(h, 4) + CharAt(h, 5) + "/"
  }

  /** `${hashAlg}/${h[0]}${h[1]}/${h[2]}${h[3]}/${h[4]}${h[5]}/${hash}` */
  function ShardedPath(hashAlg: string, h: string): string {
    (hashAlg + "/") + Shards(h) + h
  }

  /** For a hash of six or more characters the shard directories are its first three character pairs. */
  lemma ShardedPathOfLongHash(hashAlg: string, h: string)
    requires |h| >= 6
    ensures ShardedPath(hashAlg, h) == hashAlg + "/" + h[0..2] + "/" + h[2..4] + "/" + h[4..6] + "/" + h
    ensures |ShardedPath(hashAlg, h)| == |hashAlg| + 10 + |h|
  {
    assert CharAt(h, 0) + CharAt(h, 1) == h[0..2];
    assert CharAt(h, 2) + CharAt(h, 3) == h[2..4];
    assert CharAt(h, 4) + CharAt(h, 5) == h[4..6];
  }

  /** The storage key of an object: the zone's directory joined with the sharded path. */
  function ObjectKey(zone: Zone, hashAlg: string, hash: string): string {
    JoinKeys(OrEmpty(zone.directory), ShardedPath(hashAlg, hash))
  }

  /**
   * The key is the zone's directory (with one "/" after it, when set), then
   * the algorithm, then the shards, and it ends with the full hash.
   */
  lemma ObjectKeyShape(zone: Zone, hashAlg: string, hash: string)
    ensures ObjectKey(zone, hashAlg, hash) == JoinPrefix(OrEmpty(zone.directory)) + ShardedPath(hashAlg, hash)
    ensures StartsWith(ObjectKey(zone, hashAlg, hash), JoinPrefix(OrEmpty(zone.directory)) + (hashAlg + "/"))
    ensures EndsWith(ObjectKey(zone, hashAlg, hash), hash)
  {
    ConcatAffixes4(JoinPrefix(OrEmpty(zone.directory)), hashAlg + "/", Shards(hash), hash);
  }

  /**
   * Content addressing: two valid SHA-1 hashes have equal storage keys only
   * if they are equal, whatever the zones' directories.
   */
  lemma {:induction false} ObjectKeyInjective(z1: Zone, z2: Zone, h1: string, h2: string)
    requires IsLowerHex40(h1) && IsLowerHex40(h2)
    requires ObjectKey(z1, Sha1Alg, h1) == ObjectKey(z2, Sha1Alg, h2)
    ensures h1 == h2
  {
    ObjectKeyShape(z1, Sha1Alg, h1);
    ObjectKeyShape(z2, Sha1Alg, h2);
  }

  /** The bucket reference built from a configured zone. */
  function BucketOf(zone: Zone): Bucket
    requires Truthy(zone.bucketUri) && Truthy(zone.credentials)
  {
    Bucket(zone.bucketUri.value, zone.credentials.value)
  }

  /** `objectExists(bucket, key).exists` */
  predicate ObjectPresent(store: ObjectStore, bucket: Bucket, key: string) {
    (bucket.uri, key) in store.objects
  }

  /** `size || 0` of `objectExists(bucket, key)` for a present object. */
  function ReportedSize(store: ObjectStore, bucket: Bucket, key: string): int
    requires ObjectPresent(store, bucket, key)
  {
    store.objects[(bucket.uri, key)].GetOr(0)
  }

  /** The result of `createSignedDownloadUrl`. */
  datatype DownloadUrlInfo = DownloadUrlInfo(found: bool, signedDownloadUrl: string, size: int, objectKey: string)

  /** The result of `createSignedUploadUrl`. */
  datatype UploadUrlInfo = UploadUrlInfo(signedUploadUrl: string, objectKey: string)

  /** Checks the zone's bucket URI, then its credentials. */
  function ConfigError(zone: Zone): (r: Option<Error>)
    ensures r.None? <==> Truthy(zone.bucketUri) && Truthy(zone.credentials)
    ensures !Truthy(zone.bucketUri) ==> r == Some(BucketUriNotSet(zone.zoneName))
    ensures Truthy(zone.bucketUri) && !Truthy(zone.credentials) ==> r == Some(CredentialsNotSet(zone.zoneName))
  {
    if !Truthy(zone.bucketUri) then Some(BucketUriNotSet(zone.zoneName))
    else if !Truthy(zone.credentials) then Some(CredentialsNotSet(zone.zoneName))
    else None
  }

  /**
   * `createSignedDownloadUrl`: reject any algorithm but sha1, then a zone
   * without bucket URI or credentials; otherwise look the key up and sign a
   * one-hour URL for a present object.
   */
  function CreateSignedDownloadUrl(zone: Zone, hash: string, hashAlg: string, store: ObjectStore, signer: Signer)
    : (r: Result<DownloadUrlInfo, Error>)
    ensures hashAlg != Sha1Alg ==> r == Failure(UnsupportedHashAlgorithm(hashAlg))
    ensures hashAlg == Sha1Alg && ConfigError(zone).Some? ==> r == Failure(ConfigError(zone).value)
    ensures r.Success? <==> hashAlg == Sha1Alg && ConfigError(zone).None?
    ensures r.Success? ==>
      && r.value.objectKey == ObjectKey(zone, hashAlg, hash)
      && (r.value.found <==> ObjectPresent(store, BucketOf(zone), r.value.objectKey))
    ensures r.Success? && !r.value.found ==> r.value.signedDownloadUrl == "" && r.value.size == 0
    ensures r.Success? && r.value.found ==>
      && r.value.signedDownloadUrl == signer.downloadUrl(BucketOf(zone), r.value.objectKey, DownloadUrlTtlSeconds)
      && r.value.size == ReportedSize(store, BucketOf(zone), r.value.objectKey)
  {
    if hashAlg != Sha1Alg then Failure(UnsupportedHashAlgorithm(hashAlg))
    else
      var objectKey := ObjectKey(zone, hashAlg, hash);
      if !Truthy(zone.bucketUri) then Failure(BucketUriNotSet(zone.zoneName))
      else if !Truthy(zone.credentials) then Failure(CredentialsNotSet(zone.zoneName))
      else
        var bucket := Bucket(zone.bucketUri.value, zone.credentials.value);
        if !ObjectPresent(store, bucket, objectKey) then
          Success(DownloadUrlInfo(false, "", 0, objectKey))
        else
          var url := signer.downloadUrl(bucket, objectKey, DownloadUrlTtlSeconds);
          Success(DownloadUrlInfo(true, url, ReportedSize(store, bucket, objectKey), objectKey))
  }

  /**
   * `checkFileExists`: no algorithm check; a zone without bucket URI or
   * credentials is rejected; otherwise whether the key is present.
   */
  function CheckFileExists(zone: Zone, hash: string, hashAlg: string, store: ObjectStore): (r: Result<bool, Error>)
    ensures ConfigError(zone).Some? ==> r == Failure(ConfigError(zone).value)
    ensures ConfigError(zone).None? ==> r == Success(ObjectPresent(store, BucketOf(zone), ObjectKey(zone, hashAlg, hash)))
  {
    if !Truthy(zone.bucketUri) then Failure(BucketUriNotSet(zone.zoneName))
    else
      var objectKey := ObjectKey(zone, hashAlg, hash);
      if !Truthy(zone.bucketUri) then Failure(BucketUriNotSet(zone.zoneName))
      else if !Truthy(zone.credentials) then Failure(CredentialsNotSet(zone.zoneName))
      else
        var bucket := Bucket(zone.bucketUri.value, zone.credentials.value);
        Success(ObjectPresent(store, bucket, objectKey))
  }

  /**
   * `createSignedUploadUrl`: reject any algorithm but sha1, then a zone
   * without bucket URI or credentials; otherwise sign an upload URL for the key.
   */
  function CreateSignedUploadUrl(zone: Zone, size: int, hash: string, hashAlg: string, signer: Signer)
    : (r: Result<UploadUrlInfo, Error>)
    ensures hashAlg != Sha1Alg ==> r == Failure(UnsupportedHashAlgorithm(hashAlg))
    ensures hashAlg == Sha1Alg && ConfigError(zone).Some? ==> r == Failure(ConfigError(zone).value)
    ensures r.Success? <==> hashAlg == Sha1Alg && ConfigError(zone).None?
    ensures r.Success? ==>
      && r.value.objectKey == ObjectKey(zone, hashAlg, hash)
      && r.value.signedUploadUrl == signer.uploadUrl(BucketOf(zone), r.value.objectKey)
  {
    if hashAlg != Sha1Alg then Failure(UnsupportedHashAlgorithm(hashAlg))
    else
      var objectKey := ObjectKey(zone, hashAlg, hash);
      if !Truthy(zone.bucketUri) then Failure(BucketUriNotSet(zone.zoneName))
      else if !Truthy(zone.credentials) then Failure(CredentialsNotSet(zone.zoneName))
      else
        var bucket := Bucket(zone.bucketUri.value, zone.credentials.value);
        Success(UploadUrlInfo(signer.uploadUrl(bucket, objectKey), objectKey))
  }

  /**
   * The three wrappers agree on where an object lives: the upload key, the
   * download key and the key whose existence is checked are one key, so an
   * existence check and a download lookup give the same answer.
   */
  lemma SameKeyEverywhere(zone: Zone, size: int, hash: string, store: ObjectStore, signer: Signer)
    requires ConfigError(zone).None?
    ensures CreateSignedUploadUrl(zone, size, hash, Sha1Alg, signer).Success?
    ensures CreateSignedDownloadUrl(zone, hash, Sha1Alg, store, signer).Success?
    ensures CreateSignedUploadUrl(zone, size, hash, Sha1Alg, signer).value.objectKey
         == CreateSignedDownloadUrl(zone, hash, Sha1Alg, store, signer).value.objectKey
    ensures CheckFileExists(zone, hash, Sha1Alg, store)
         == Success(CreateSignedDownloadUrl(zone, hash, Sha1Alg, store, signer).value.found)
  {
  }

  /**
   * A hash shorter than six characters is not rejected here: for a
   * two-character hash, each missing shard character prints as "undefined".
   */
  lemma ShortHashKey(h: string)
    requires |h| == 2
    ensures Shards(h) == h + "/" + "undefined" + "undefined" + "/" + "undefined" + "undefined" + "/"
  {
    assert CharAt(h, 0) + CharAt(h, 1) == h;
  }
}
