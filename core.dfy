/**
 * Upload coordinator and download resolver (apiHelpers/core.ts).
 *
 * The gateway keeps three pieces of state: the upload records and the
 * download records of the record store (append-only sequences, read back
 * in insertion order), and the in-process map from `zone:hashAlg:hash` to
 * the last signed download URL issued for it. The object store and its URL
 * signer are values handed in, and the clock is the `now` argument (in
 * milliseconds).
 */
module Core {
  import opened Wrappers
  import opened JsStrings
  import opened Types
  import opened SignedUrls

  /** Largest file accepted in the zone named "default". */
  const DefaultZoneMaxSize: int := 1000 * 1000 * 200

  /** Largest file accepted in every other zone. */
  const ZoneMaxSize: int := 1000 * 1000 * 1000

  /**
   * Ten minutes in milliseconds: how far back a recorded download is reused,
   * and how long a memory-cached URL is served.
   */
  const RecentWindowMs: int := 1000 * 60 * 10

  /** `maxSizeForZone` */
  function MaxSizeForZone(zone: Zone): (r: int)
    ensures r == if zone.zoneName == "default" then 200_000_000 else 1_000_000_000
  {
    if zone.zoneName == "default" then DefaultZoneMaxSize else ZoneMaxSize
  }

  /** `isValidSha1`: the regular expression `^[0-9a-f]{40}$`. */
  predicate IsValidSha1(hash: string) {
    IsLowerHex40(hash)
  }

  datatype UploadStage = Initiate | Finalize

  /** A document of the `uploadRecords` collection. */
  datatype UploadRecord = UploadRecord(
    stage: UploadStage, timestamp: int, zoneName: string, bucketUri: string, userId: string,
    size: int, hash: string, hashAlg: string, objectKey: string)

  /** A document of the `downloadRecords` collection. */
  datatype DownloadRecord = DownloadRecord(
    timestamp: int, zoneName: string, bucketUri: string, userId: string,
    size: int, hash: string, hashAlg: string, objectKey: string, downloadUrl: string)

  /** An entry of `signedDownloadUrlMemoryCache`. */
  datatype CachedUrl = CachedUrl(url: string, expires: int, size: int, bucketUri: string, objectKey: string)

  /** What `initiateUpload` returns; an absent optional field is `None`. */
  datatype InitiateUploadResult = InitiateUploadResult(
    alreadyExists: bool, alreadyPending: bool, signedUploadUrl: Option<string>, objectKey: Option<string>)

  /** What `findFile` returns; an absent optional field is `None`. */
  datatype FindFileResult = FindFileResult(
    found: bool, url: Option<string>, size: Option<int>, bucketUri: Option<string>,
    objectKey: Option<string>, cacheHit: Option<bool>)

  const NotFound: FindFileResult := FindFileResult(false, None, None, None, None, None)

  /**
   * The checks `initiateUpload` makes before touching the object store, in
   * their order: bucket URI, size limit (strict `>`), algorithm, hash form.
   */
  function UploadPrecheck(zone: Zone, size: int, hash: string, hashAlg: string): (r: Option<Error>)
    ensures r.None? <==> Truthy(zone.bucketUri) && size <= MaxSizeForZone(zone) && hashAlg == Sha1Alg && IsValidSha1(hash)
    ensures !Truthy(zone.bucketUri) ==> r == Some(BucketUriNotSet(zone.zoneName))
    ensures Truthy(zone.bucketUri) && size > MaxSizeForZone(zone) ==> r == Some(FileTooLarge(size, MaxSizeForZone(zone)))
    ensures Truthy(zone.bucketUri) && size <= MaxSizeForZone(zone) && hashAlg != Sha1Alg ==> r == Some(UnsupportedHashAlgorithm(hashAlg))
    ensures Truthy(zone.bucketUri) && size <= MaxSizeForZone(zone) && hashAlg == Sha1Alg && !IsValidSha1(hash)
      ==> r == Some(InvalidHash(hash))
  {
    if !Truthy(zone.bucketUri) then Some(BucketUriNotSet(zone.zoneName))
    else if size > MaxSizeForZone(zone) then Some(FileTooLarge(size, MaxSizeForZone(zone)))
    else if hashAlg != Sha1Alg then Some(UnsupportedHashAlgorithm(hashAlg))
    else if !IsValidSha1(hash) then Some(InvalidHash(hash))
    else None
  }

  /** The size limit is inclusive: a file of exactly the limit passes, one byte more does not. */
  lemma SizeLimitIsInclusive(zone: Zone, hash: string)
    requires Truthy(zone.bucketUri) && IsValidSha1(hash)
    ensures UploadPrecheck(zone, MaxSizeForZone(zone), hash, Sha1Alg).None?
    ensures UploadPrecheck(zone, MaxSizeForZone(zone) + 1, hash, Sha1Alg)
         == Some(FileTooLarge(MaxSizeForZone(zone) + 1, MaxSizeForZone(zone)))
    ensures zone.zoneName == "default" ==> UploadPrecheck(zone, 200_000_001, hash, Sha1Alg).Some?
    ensures zone.zoneName != "default" ==> UploadPrecheck(zone, 200_000_001, hash, Sha1Alg).None?
  {
  }

  /** The outcome of one `initiateUpload` call: its result and the upload records it appends. */
  datatype InitiateStep = InitiateStep(result: Result<InitiateUploadResult, Error>, appended: seq<UploadRecord>)

  /**
   * `initiateUpload`. A failed precheck fails before the object store is
   * consulted; a zone without credentials fails in the existence check; an
   * object already present is reported without URL, key or record; otherwise
   * one "initiate" record carrying the returned key is appended. The upload is
   * never reported as pending.
   */
  function InitiateUploadOutcome(zone: Zone, userId: string, size: int, hash: string, hashAlg: string,
                                 store: ObjectStore, signer: Signer, now: int): (r: InitiateStep)
    ensures UploadPrecheck(zone, size, hash, hashAlg).Some?
      ==> r == InitiateStep(Failure(UploadPrecheck(zone, size, hash, hashAlg).value), [])
    ensures UploadPrecheck(zone, size, hash, hashAlg).None? && ConfigError(zone).Some?
      ==> r == InitiateStep(Failure(ConfigError(zone).value), [])
    ensures r.result.Success? <==> UploadPrecheck(zone, size, hash, hashAlg).None? && ConfigError(zone).None?
    ensures r.result.Success? ==> !r.result.value.alreadyPending
    ensures r.result.Success? ==>
      (r.result.value.alreadyExists <==> ObjectPresent(store, BucketOf(zone), ObjectKey(zone, hashAlg, hash)))
    ensures r.result.Success? && r.result.value.alreadyExists ==>
      r == InitiateStep(Success(InitiateUploadResult(true, false, None, None)), [])
    ensures r.result.Success? && !r.result.value.alreadyExists ==>
      var key := ObjectKey(zone, hashAlg, hash);
      && r.result.value == InitiateUploadResult(false, false, Some(signer.uploadUrl(BucketOf(zone), key)), Some(key))
      && r.appended == [UploadRecord(Initiate, now, zone.zoneName, zone.bucketUri.value, userId, size, hash, hashAlg, key)]
  {
    match UploadPrecheck(zone, size, hash, hashAlg)
    case Some(e) => InitiateStep(Failure(e), [])
    case None =>
      match CheckFileExists(zone, hash, hashAlg, store)
      case Failure(e) => InitiateStep(Failure(e), [])
      case Success(present) =>
        if present then InitiateStep(Success(InitiateUploadResult(true, false, None, None)), [])
        else
          var info := CreateSignedUploadUrl(zone, size, hash, hashAlg, signer).value;
          var rec := UploadRecord(Initiate, now, zone.zoneName, zone.bucketUri.value, userId, size, hash, hashAlg, info.objectKey);
          InitiateStep(Success(InitiateUploadResult(false, false, Some(info.signedUploadUrl), Some(info.objectKey))), [rec])
  }

  /** Uploading is content-addressed: once the object is present, no further upload records are written for it. */
  lemma PresentObjectIsNotUploadedAgain(zone: Zone, userId: string, size: int, hash: string, store: ObjectStore,
                                        signer: Signer, now: int)
    requires ConfigError(zone).None? && ObjectPresent(store, BucketOf(zone), ObjectKey(zone, Sha1Alg, hash))
    ensures InitiateUploadOutcome(zone, userId, size, hash, Sha1Alg, store, signer, now).appended == []
    ensures IsValidSha1(hash) && size <= MaxSizeForZone(zone) ==>
      InitiateUploadOutcome(zone, userId, size, hash, Sha1Alg, store, signer, now).result
        == Success(InitiateUploadResult(true, false, None, None))
  {
  }

  /** `findRecordedDownload`'s filter: same zone, hash and algorithm, recorded no earlier than the bound. */
  predicate RecordMatches(d: DownloadRecord, zoneName: string, hash: string, hashAlg: string, minimumTimestamp: int) {
    d.zoneName == zoneName && d.hash == hash && d.hashAlg == hashAlg && d.timestamp >= minimumTimestamp
  }

  /** `findRecordedDownload`: the first matching download record in insertion order, if any. */
  function FindRecordedDownload(records: seq<DownloadRecord>, zoneName: string, hash: string, hashAlg: string,
                                minimumTimestamp: int): (r: Option<DownloadRecord>)
    ensures r.None? <==> forall i | 0 <= i < |records| :: !RecordMatches(records[i], zoneName, hash, hashAlg, minimumTimestamp)
    ensures r.Some? ==> exists i | 0 <= i < |records| ::
      && records[i] == r.value
      && RecordMatches(records[i], zoneName, hash, hashAlg, minimumTimestamp)
      && forall j | 0 <= j < i :: !RecordMatches(records[j], zoneName, hash, hashAlg, minimumTimestamp)
    decreases |records|
  {
    if |records| == 0 then None
    else if RecordMatches(records[0], zoneName, hash, hashAlg, minimumTimestamp) then Some(records[0])
    else
      var rest := FindRecordedDownload(records[1..], zoneName, hash, hashAlg, minimumTimestamp);
      assert forall i | 1 <= i < |records| :: records[i] == records[1..][i - 1];
      rest
  }

  /** The memory-cache key `${zoneName}:${hashAlg}:${hash}`. */
  function CacheKey(zoneName: string, hashAlg: string, hash: string): string {
    zoneName + ":" + hashAlg + ":" + hash
  }

  /**
   * The key cannot confuse two requests that passed hash validation: a zone
   * name may contain ':', but the fixed-length suffix `:sha1:<40 hex>` pins
   * down both the hash and the zone name.
   */
  lemma {:induction false} CacheKeyInjective(z1: string, h1: string, z2: string, h2: string)
    requires IsValidSha1(h1) && IsValidSha1(h2)
    requires CacheKey(z1, Sha1Alg, h1) == CacheKey(z2, Sha1Alg, h2)
    ensures z1 == z2 && h1 == h2
  {
    var k := CacheKey(z1, Sha1Alg, h1);
    var s1, s2 := ":" + Sha1Alg + ":" + h1, ":" + Sha1Alg + ":" + h2;
    assert k == z1 + s1 && k == z2 + s2;
    assert |s1| == |s2| == 46;
    assert |z1| == |z2|;
    assert z1 == k[..|z1|] && z2 == k[..|z2|];
    assert s1 == k[|z1|..] && s2 == k[|z2|..];
    assert h1 == s1[6..] && h2 == s2[6..];
  }

  /**
   * Every memory-cached URL was issued by a recorded download of the same
   * zone, algorithm and hash, with the same key, size and URL.
   */
  predicate CacheBacked(cache: map<string, CachedUrl>, records: seq<DownloadRecord>) {
    forall k | k in cache :: exists i | 0 <= i < |records| ::
      && CacheKey(records[i].zoneName, records[i].hashAlg, records[i].hash) == k
      && records[i].downloadUrl == cache[k].url
      && records[i].objectKey == cache[k].objectKey
      && records[i].size == cache[k].size
  }

  /** A memory-cache entry still served at `now`. */
  predicate Fresh(cache: map<string, CachedUrl>, k: string, now: int) {
    k in cache && cache[k].expires > now
  }

  /** The outcome of one `findFile` call: its result, the new memory cache and the download records it appends. */
  datatype FindStep = FindStep(result: Result<FindFileResult, Error>, cache: map<string, CachedUrl>, appended: seq<DownloadRecord>)

  /** The answer served from a memory-cache entry. */
  function MemoryHit(c: CachedUrl): FindFileResult {
    FindFileResult(true, Some(c.url), Some(c.size), Some(c.bucketUri), Some(c.objectKey), Some(true))
  }

  /** The answer served from a recent download record; the bucket URI is the zone's current one. */
  function RecordHit(zone: Zone, d: DownloadRecord): FindFileResult {
    FindFileResult(true, Some(d.downloadUrl), Some(d.size), zone.bucketUri, Some(d.objectKey), Some(true))
  }

  /**
   * The cold path of `findFile`, on the cache after tier 1: ask the object
   * store; an absent object gives `found = false` and changes nothing; a
   * present one appends one download record (user id defaulting to "") and
   * caches the URL for ten minutes, and the result carries no `cacheHit`.
   */
  function ColdLookup(zone: Zone, userId: Option<string>, hash: string, hashAlg: string,
                      cache: map<string, CachedUrl>, store: ObjectStore, signer: Signer, now: int): (r: FindStep)
    requires Truthy(zone.bucketUri)
    ensures CreateSignedDownloadUrl(zone, hash, hashAlg, store, signer).Failure? ==>
      r == FindStep(Failure(CreateSignedDownloadUrl(zone, hash, hashAlg, store, signer).error), cache, [])
    ensures r.result.Success? <==> hashAlg == Sha1Alg && Truthy(zone.credentials)
    ensures r.result.Success? && !r.result.value.found ==> r == FindStep(Success(NotFound), cache, [])
    ensures r.result.Success? ==>
      (r.result.value.found <==> ObjectPresent(store, BucketOf(zone), ObjectKey(zone, hashAlg, hash)))
    ensures r.result.Success? && r.result.value.found ==>
      var key := ObjectKey(zone, hashAlg, hash);
      var url := signer.downloadUrl(BucketOf(zone), key, DownloadUrlTtlSeconds);
      var size := ReportedSize(store, BucketOf(zone), key);
      && r.result.value == FindFileResult(true, Some(url), Some(size), zone.bucketUri, Some(key), None)
      && r.cache == cache[CacheKey(zone.zoneName, hashAlg, hash) := CachedUrl(url, now + RecentWindowMs, size, zone.bucketUri.value, key)]
      && r.appended == [DownloadRecord(now, zone.zoneName, zone.bucketUri.value, OrEmpty(userId), size, hash, hashAlg, key, url)]
  {
    match CreateSignedDownloadUrl(zone, hash, hashAlg, store, signer)
    case Failure(e) => FindStep(Failure(e), cache, [])
    case Success(info) =>
      if !info.found then FindStep(Success(NotFound), cache, [])
      else
        var rec := DownloadRecord(now, zone.zoneName, zone.bucketUri.value, OrEmpty(userId), info.size, hash, hashAlg,
                                  info.objectKey, info.signedDownloadUrl);
        var entry := CachedUrl(info.signedDownloadUrl, now + RecentWindowMs, info.size, zone.bucketUri.value, info.objectKey);
        FindStep(Success(FindFileResult(true, Some(info.signedDownloadUrl), Some(info.size), zone.bucketUri,
                                        Some(info.objectKey), None)), cache[CacheKey(zone.zoneName, hashAlg, hash) := entry], [rec])
  }

  /**
   * `findFile`. A zone without bucket URI fails first. Tier 1: a fresh memory
   * entry is returned as a cache hit and nothing changes; a stale one is
   * removed, whatever happens next. Tier 2: the first download record of the
   * last ten minutes is reused as a cache hit, without a record or a memory
   * entry. Otherwise the cold path.
   */
  function FindFileOutcome(zone: Zone, userId: Option<string>, hash: string, hashAlg: string,
                           cache: map<string, CachedUrl>, records: seq<DownloadRecord>,
                           store: ObjectStore, signer: Signer, now: int): (r: FindStep)
    ensures !Truthy(zone.bucketUri) ==> r == FindStep(Failure(BucketUriNotSet(zone.zoneName)), cache, [])
    ensures Truthy(zone.bucketUri) && Fresh(cache, CacheKey(zone.zoneName, hashAlg, hash), now) ==>
      r == FindStep(Success(MemoryHit(cache[CacheKey(zone.zoneName, hashAlg, hash)])), cache, [])
    ensures Truthy(zone.bucketUri) && !Fresh(cache, CacheKey(zone.zoneName, hashAlg, hash), now) ==>
      ColdOrRecord(zone, userId, hash, hashAlg, cache - {CacheKey(zone.zoneName, hashAlg, hash)}, records, store, signer, now, r)
  {
    if !Truthy(zone.bucketUri) then FindStep(Failure(BucketUriNotSet(zone.zoneName)), cache, [])
    else
      var k := CacheKey(zone.zoneName, hashAlg, hash);
      if Fresh(cache, k, now) then FindStep(Success(MemoryHit(cache[k])), cache, [])
      else
        var cache1 := cache - {k};
        match FindRecordedDownload(records, zone.zoneName, hash, hashAlg, now - RecentWindowMs)
        case Some(d) => FindStep(Success(RecordHit(zone, d)), cache1, [])
        case None => ColdLookup(zone, userId, hash, hashAlg, cache1, store, signer, now)
  }

  /** Tiers 2 and 3 of `findFile`, given the cache after tier 1. */
  predicate ColdOrRecord(zone: Zone, userId: Option<string>, hash: string, hashAlg: string,
                         cache: map<string, CachedUrl>, records: seq<DownloadRecord>,
                         store: ObjectStore, signer: Signer, now: int, r: FindStep)
    requires Truthy(zone.bucketUri)
  {
    match FindRecordedDownload(records, zone.zoneName, hash, hashAlg, now - RecentWindowMs)
    case Some(d) => r == FindStep(Success(RecordHit(zone, d)), cache, [])
    case None => r == ColdLookup(zone, userId, hash, hashAlg, cache, store, signer, now)
  }

  /** `findFile` touches no memory entry but its own key, and appends at most one record. */
  lemma FindFileIsLocal(zone: Zone, userId: Option<string>, hash: string, hashAlg: string,
                        cache: map<string, CachedUrl>, records: seq<DownloadRecord>,
                        store: ObjectStore, signer: Signer, now: int, other: string)
    requires other != CacheKey(zone.zoneName, hashAlg, hash)
    ensures var r := FindFileOutcome(zone, userId, hash, hashAlg, cache, records, store, signer, now);
      && (other in r.cache <==> other in cache)
      && (other in cache ==> r.cache[other] == cache[other])
      && |r.appended| <= 1
      && (|r.appended| == 1 <==> r.result.Success? && r.result.value.found && r.result.value.cacheHit.None?)
  {
    var r := FindFileOutcome(zone, userId, hash, hashAlg, cache, records, store, signer, now);
    var k := CacheKey(zone.zoneName, hashAlg, hash);
    if Truthy(zone.bucketUri) && !Fresh(cache, k, now) {
      var cache1 := cache - {k};
      assert other in cache1 <==> other in cache;
      if FindRecordedDownload(records, zone.zoneName, hash, hashAlg, now - RecentWindowMs).None? {
        assert r == ColdLookup(zone, userId, hash, hashAlg, cache1, store, signer, now);
      }
    }
  }

  /** `findFile` keeps every memory-cached URL backed by a download record. */
  lemma FindFileKeepsCacheBacked(zone: Zone, userId: Option<string>, hash: string, hashAlg: string,
                                 cache: map<string, CachedUrl>, records: seq<DownloadRecord>,
                                 store: ObjectStore, signer: Signer, now: int)
    requires CacheBacked(cache, records)
    ensures var r := FindFileOutcome(zone, userId, hash, hashAlg, cache, records, store, signer, now);
      CacheBacked(r.cache, records + r.appended)
  {
    var r := FindFileOutcome(zone, userId, hash, hashAlg, cache, records, store, signer, now);
    var all := records + r.appended;
    var k := CacheKey(zone.zoneName, hashAlg, hash);
    assert forall i | 0 <= i < |records| :: all[i] == records[i];
    if Truthy(zone.bucketUri) && !Fresh(cache, k, now) {
      var cache1 := cache - {k};
      assert CacheBacked(cache1, all);
      if FindRecordedDownload(records, zone.zoneName, hash, hashAlg, now - RecentWindowMs).None? {
        assert r == ColdLookup(zone, userId, hash, hashAlg, cache1, store, signer, now);
        if r.result.Success? && r.result.value.found {
          var n := |records|;
          assert all[n] == r.appended[0];
          forall k' | k' in r.cache
            ensures exists i | 0 <= i < |all| ::
              && CacheKey(all[i].zoneName, all[i].hashAlg, all[i].hash) == k'
              && all[i].downloadUrl == r.cache[k'].url
              && all[i].objectKey == r.cache[k'].objectKey
              && all[i].size == r.cache[k'].size
          {
            if k' == k {
              assert CacheKey(all[n].zoneName, all[n].hashAlg, all[n].hash) == k';
            } else {
              assert k' in cache1 && r.cache[k'] == cache1[k'];
            }
          }
        }
      }
    }
  }

  /**
   * Whenever `findFile` reports a file found, the URL, key and size it
   * returns are those of a download record of the same zone, algorithm
   * and hash, old or just appended.
   */
  lemma FoundUrlIsRecorded(zone: Zone, userId: Option<string>, hash: string, hashAlg: string,
                           cache: map<string, CachedUrl>, records: seq<DownloadRecord>,
                           store: ObjectStore, signer: Signer, now: int)
    requires CacheBacked(cache, records)
    ensures var r := FindFileOutcome(zone, userId, hash, hashAlg, cache, records, store, signer, now);
      var all := records + r.appended;
      r.result.Success? && r.result.value.found ==>
        exists i | 0 <= i < |all| ::
          && CacheKey(all[i].zoneName, all[i].hashAlg, all[i].hash) == CacheKey(zone.zoneName, hashAlg, hash)
          && Some(all[i].downloadUrl) == r.result.value.url
          && Some(all[i].objectKey) == r.result.value.objectKey
          && Some(all[i].size) == r.result.value.size
  {
    var r := FindFileOutcome(zone, userId, hash, hashAlg, cache, records, store, signer, now);
    var all := records + r.appended;
    var k := CacheKey(zone.zoneName, hashAlg, hash);
    if r.result.Success? && r.result.value.found {
      if Fresh(cache, k, now) {
        var i :| 0 <= i < |records| && CacheKey(records[i].zoneName, records[i].hashAlg, records[i].hash) == k
          && records[i].downloadUrl == cache[k].url && records[i].objectKey == cache[k].objectKey
          && records[i].size == cache[k].size;
        assert all[i] == records[i];
      } else if FindRecordedDownload(records, zone.zoneName, hash, hashAlg, now - RecentWindowMs).Some? {
        var d := FindRecordedDownload(records, zone.zoneName, hash, hashAlg, now - RecentWindowMs).value;
        var i :| 0 <= i < |records| && records[i] == d
          && RecordMatches(records[i], zone.zoneName, hash, hashAlg, now - RecentWindowMs);
        assert all[i] == records[i];
      } else {
        assert r == ColdLookup(zone, userId, hash, hashAlg, cache - {k}, store, signer, now);
        assert all[|records|] == r.appended[0];
      }
    }
  }

  /**
   * A cold lookup that finds the object is served from memory by any repeat
   * request for the same zone, hash and algorithm within the next ten
   * minutes, with the same URL, and without another record.
   */
  lemma RepeatLookupHitsMemory(zone: Zone, userId: Option<string>, userId2: Option<string>, hash: string,
                               cache: map<string, CachedUrl>, records: seq<DownloadRecord>,
                               store: ObjectStore, signer: Signer, now: int, later: int)
    requires now <= later < now + RecentWindowMs
    requires !Fresh(cache, CacheKey(zone.zoneName, Sha1Alg, hash), now)
    requires FindRecordedDownload(records, zone.zoneName, hash, Sha1Alg, now - RecentWindowMs).None?
    requires ConfigError(zone).None? && ObjectPresent(store, BucketOf(zone), ObjectKey(zone, Sha1Alg, hash))
    ensures var first := FindFileOutcome(zone, userId, hash, Sha1Alg, cache, records, store, signer, now);
      var second := FindFileOutcome(zone, userId2, hash, Sha1Alg, first.cache, records + first.appended, store, signer, later);
      && first.result.Success? && first.result.value.found && first.result.value.cacheHit == None
      && |first.appended| == 1
      && second.result.Success? && second.result.value.cacheHit == Some(true)
      && second.result.value.url == first.result.value.url
      && second.appended == []
      && second.cache == first.cache
  {
    var k := CacheKey(zone.zoneName, Sha1Alg, hash);
    var first := FindFileOutcome(zone, userId, hash, Sha1Alg, cache, records, store, signer, now);
    assert first == ColdLookup(zone, userId, hash, Sha1Alg, cache - {k}, store, signer, now);
    assert k in first.cache && first.cache[k].expires == now + RecentWindowMs;
    assert Fresh(first.cache, k, later);
  }

  /**
   * The gateway's state: the two record collections and the memory cache of
   * signed download URLs.
   */
  class Gateway {
    var uploadRecords: seq<UploadRecord>
    var downloadRecords: seq<DownloadRecord>
    var urlCache: map<string, CachedUrl>

    /** Every cached URL stems from a recorded download. */
    predicate Valid()
      reads this
    {
      CacheBacked(urlCache, downloadRecords)
    }

    constructor()
      ensures Valid()
      ensures uploadRecords == [] && downloadRecords == [] && urlCache == map[]
    {
      uploadRecords := [];
      downloadRecords := [];
      urlCache := map[];
    }

    /** `recordUpload` */
    method RecordUpload(rec: UploadRecord)
      modifies this
      ensures uploadRecords == old(uploadRecords) + [rec]
      ensures downloadRecords == old(downloadRecords) && urlCache == old(urlCache)
    {
      uploadRecords := uploadRecords + [rec];
    }

    /** `recordDownload` */
    method RecordDownload(rec: DownloadRecord)
      modifies this
      ensures downloadRecords == old(downloadRecords) + [rec]
      ensures uploadRecords == old(uploadRecords) && urlCache == old(urlCache)
    {
      downloadRecords := downloadRecords + [rec];
    }

    /** `initiateUpload`, on the gateway's state. */
    method InitiateUpload(zone: Zone, userId: string, size: int, hash: string, hashAlg: string,
                          store: ObjectStore, signer: Signer, now: int)
      returns (r: Result<InitiateUploadResult, Error>)
      requires Valid()
      modifies this
      ensures Valid()
      ensures var step := InitiateUploadOutcome(zone, userId, size, hash, hashAlg, store, signer, now);
        r == step.result && uploadRecords == old(uploadRecords) + step.appended
      ensures downloadRecords == old(downloadRecords) && urlCache == old(urlCache)
    {
      var pre := UploadPrecheck(zone, size, hash, hashAlg);
      if pre.Some? {
        return Failure(pre.value);
      }
      var present := CheckFileExists(zone, hash, hashAlg, store);
      if present.Failure? {
        return Failure(present.error);
      }
      if present.value {
        return Success(InitiateUploadResult(true, false, None, None));
      }
      var info := CreateSignedUploadUrl(zone, size, hash, hashAlg, signer).value;
      RecordUpload(UploadRecord(Initiate, now, zone.zoneName, zone.bucketUri.value, userId, size, hash, hashAlg, info.objectKey));
      r := Success(InitiateUploadResult(false, false, Some(info.signedUploadUrl), Some(info.objectKey)));
    }

    /**
     * `finalizeUpload`: only the bucket URI is checked; one "finalize" record
     * with the caller's key is appended, whether or not the object exists.
     */
    method FinalizeUpload(zone: Zone, userId: string, size: int, hash: string, hashAlg: string, objectKey: string, now: int)
      returns (r: Result<bool, Error>)
      requires Valid()
      modifies this
      ensures Valid()
      ensures !Truthy(zone.bucketUri) ==> r == Failure(BucketUriNotSet(zone.zoneName)) && uploadRecords == old(uploadRecords)
      ensures Truthy(zone.bucketUri) ==>
        && r == Success(true)
        && uploadRecords == old(uploadRecords)
             + [UploadRecord(Finalize, now, zone.zoneName, zone.bucketUri.value, userId, size, hash, hashAlg, objectKey)]
      ensures downloadRecords == old(downloadRecords) && urlCache == old(urlCache)
    {
      if !Truthy(zone.bucketUri) {
        return Failure(BucketUriNotSet(zone.zoneName));
      }
      RecordUpload(UploadRecord(Finalize, now, zone.zoneName, zone.bucketUri.value, userId, size, hash, hashAlg, objectKey));
      r := Success(true);
    }

    /** `findFile`, on the gateway's state. */
    method FindFile(zone: Zone, userId: Option<string>, hash: string, hashAlg: string,
                    store: ObjectStore, signer: Signer, now: int)
      returns (r: Result<FindFileResult, Error>)
      requires Valid()
      modifies this
      ensures Valid()
      ensures var step := FindFileOutcome(zone, userId, hash, hashAlg, old(urlCache), old(downloadRecords), store, signer, now);
        && r == step.result
        && urlCache == step.cache
        && downloadRecords == old(downloadRecords) + step.appended
      ensures uploadRecords == old(uploadRecords)
    {
      ghost var step := FindFileOutcome(zone, userId, hash, hashAlg, urlCache, downloadRecords, store, signer, now);
      ghost var records := downloadRecords;
      if !Truthy(zone.bucketUri) {
        return Failure(BucketUriNotSet(zone.zoneName));
      }
      var k := CacheKey(zone.zoneName, hashAlg, hash);
      if k in urlCache {
        var cached := urlCache[k];
        if cached.expires > now {
          assert step == FindStep(Success(MemoryHit(cached)), urlCache, []);
          return Success(MemoryHit(cached));
        } else {
          urlCache := urlCache - {k};
        }
      }
      assert urlCache == old(urlCache) - {k};
      r := ResolveUncached(zone, userId, hash, hashAlg, store, signer, now);
      ghost var appended := downloadRecords[|records|..];
      assert downloadRecords == records + appended;
      assert step == FindStep(r, urlCache, appended) by {
        match FindRecordedDownload(records, zone.zoneName, hash, hashAlg, now - RecentWindowMs)
        case Some(d) =>
        case None =>
      }
      assert Valid() by {
        FindFileKeepsCacheBacked(zone, userId, hash, hashAlg, old(urlCache), records, store, signer, now);
      }
    }

    /** Tiers 2 and 3 of `findFile`, after the memory cache has missed. */
    method ResolveUncached(zone: Zone, userId: Option<string>, hash: string, hashAlg: string,
                           store: ObjectStore, signer: Signer, now: int)
      returns (r: Result<FindFileResult, Error>)
      requires Truthy(zone.bucketUri)
      modifies this
      ensures |downloadRecords| >= |old(downloadRecords)| && downloadRecords[..|old(downloadRecords)|] == old(downloadRecords)
      ensures ColdOrRecord(zone, userId, hash, hashAlg, old(urlCache), old(downloadRecords), store, signer, now,
                           FindStep(r, urlCache, downloadRecords[|old(downloadRecords)|..]))
      ensures uploadRecords == old(uploadRecords)
    {
      var d := FindRecordedDownload(downloadRecords, zone.zoneName, hash, hashAlg, now - RecentWindowMs);
      if d.Some? {
        assert downloadRecords[|downloadRecords|..] == [];
        return Success(RecordHit(zone, d.value));
      }
      r := FetchCold(zone, userId, hash, hashAlg, store, signer, now);
    }

    /** The cold path of `findFile`: ask the object store, record the download and cache the URL. */
    method FetchCold(zone: Zone, userId: Option<string>, hash: string, hashAlg: string,
                     store: ObjectStore, signer: Signer, now: int)
      returns (r: Result<FindFileResult, Error>)
      requires Truthy(zone.bucketUri)
      modifies this
      ensures |downloadRecords| >= |old(downloadRecords)| && downloadRecords[..|old(downloadRecords)|] == old(downloadRecords)
      ensures FindStep(r, urlCache, downloadRecords[|old(downloadRecords)|..])
           == ColdLookup(zone, userId, hash, hashAlg, old(urlCache), store, signer, now)
      ensures uploadRecords == old(uploadRecords)
    {
      var info := CreateSignedDownloadUrl(zone, hash, hashAlg, store, signer);
      ghost var step := ColdLookup(zone, userId, hash, hashAlg, urlCache, store, signer, now);
      if info.Failure? {
        assert step == FindStep(Failure(info.error), urlCache, []);
        assert downloadRecords[|downloadRecords|..] == [];
        return Failure(info.error);
      }
      if !info.value.found {
        assert step == FindStep(Success(NotFound), urlCache, []);
        assert downloadRecords[|downloadRecords|..] == [];
        return Success(NotFound);
      }
      var v := info.value;
      var k := CacheKey(zone.zoneName, hashAlg, hash);
      var rec := DownloadRecord(now, zone.zoneName, zone.bucketUri.value, OrEmpty(userId), v.size, hash, hashAlg,
                                v.objectKey, v.signedDownloadUrl);
      var entry := CachedUrl(v.signedDownloadUrl, now + RecentWindowMs, v.size, zone.bucketUri.value, v.objectKey);
      r := Success(FindFileResult(true, Some(v.signedDownloadUrl), Some(v.size), zone.bucketUri, Some(v.objectKey), None));
      assert step == FindStep(r, urlCache[k := entry], [rec]);
      RecordDownload(rec);
      urlCache := urlCache[k := entry];
      assert downloadRecords[|old(downloadRecords)|..] == [rec];
    }
  }
}
