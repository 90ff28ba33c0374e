# kachery gateway: a Dafny model

kachery is a file-sharing gateway. Clients address files by their SHA-1
hash. Files live in cloud buckets, grouped into *zones*; each zone has an
owner and a list of per-user grants, and the gateway hands out signed
upload and download URLs. This project models the gateway's core and
proves properties of that model:

- **Upload and download bookkeeping** (`apiHelpers/core.ts`): the size and
  hash checks before an upload, the upload and download records, and the
  ten-minute memory cache of signed download URLs. These live in the
  `Core.Gateway` class, whose invariant is that every cached URL is backed
  by a download record.
- **Object keys and signed URLs** (`apiHelpers/signedUrls.ts`), in module
  `SignedUrls`: where a hash is stored inside a bucket, and the checks done
  before a URL is signed or an object's presence is tested.
- **The request handlers' admission logic** (`apiHelpers/requestHandlers.ts`):
  - hash and field validators (`Validators`);
  - the work token and the SHA-1 bit string (`WorkToken`);
  - zone access rules (`Policy`);
  - the zone and user directories with their caches (`Zones.ZoneDirectory`,
    `Users.UserDirectory`), over a document store that works like MongoDB
    (`Store`);
  - the checks `initiateFileUpload`, `finalizeFileUpload` and `findFile`
    make before they reach the core (`Handlers`);
  - the per-user, per-zone, per-day usage report (`Usage`).
- **Zone and user records** (`apiHelpers/types.ts`) and their documents
  (`Types`).
- **The Python client's work-token search** (`devel/test_work_token.py`), and
  the proof that the client's test agrees with the server's.
- **Two browser-side pieces:**
  - the list of recently used zones (`src/pages/HomePage/HomePage.tsx`,
    `RecentZones.RecentZoneList`);
  - the usage page's grouping of rows by day and its sort by zone and user
    (`src/pages/UsagePage/UsagePage.tsx`, `UsagePage`).

External services become parameters:
- SHA-1 (`Sha1`, a function whose results are 40 lower-case hex digits);
- the URL signer (`Signer`);
- the bucket contents (`ObjectStore`, a map from bucket and key to object size);
- the day of a timestamp (`DayOf`);
- the clock (a `now` argument).

Documents are maps from a `Field` to a `Value`. `findOne` returns the first
matching document in insertion order.

## Model

| member | source | states |
|---|---|---|
| Types.DecodeZone | apiHelpers/types.ts:26-37 | a document decodes to a zone exactly when it has the zone schema (string name and owner, grant list, boolean public download, optional strings and flag); every zone field of the document is the corresponding field of the decoded zone, present exactly when that field is defined |
| Types.EncodeZone | apiHelpers/types.ts:15-24 | the stored document has exactly the zone's present fields, each with the zone's value |
| Types.DecodeEncodeZone | apiHelpers/types.ts:15-37 | decoding a stored zone gives back the same zone |
| Types.DecodeUser | apiHelpers/types.ts:65-73 | a document decodes to a user exactly when it has the user schema; every user field of the document is the corresponding field of the decoded user, with a null api key read as no key |
| Types.EncodeUser | apiHelpers/types.ts:57-63 | the stored document has exactly the user's present fields |
| Types.DecodeEncodeUser | apiHelpers/types.ts:57-73 | decoding a stored user gives back the same user |
| Types.RedactCredentials | apiHelpers/requestHandlers.ts:874-876 | credentials become the mask when present and non-empty, and are dropped otherwise; nothing else changes |
| Types.RedactApiKey | apiHelpers/requestHandlers.ts:489 | the api key becomes the mask when set and "" otherwise; nothing else changes |
| Types.RedactionHidesSecrets | apiHelpers/requestHandlers.ts:874-876 | a redacted zone or user shows only the mask or nothing, and redacting twice is redacting once |
| JsStrings.OrEmpty | apiHelpers/signedUrls.ts:22-26 | JavaScript `x \|\| ""`: the text when it is truthy, "" otherwise |
| JsStrings.CharAt | apiHelpers/signedUrls.ts:22-26 | a template's `${h[i]}`: the character when the index is in range, "undefined" past the end |
| JsStrings.Repeat | apiHelpers/requestHandlers.ts:1292 | `"0".repeat(n)`: n copies of the character |
| JsStrings.PadStart | apiHelpers/requestHandlers.ts:1308 | `padStart`: the result is as long as the text or the width, whichever is longer |
| JsStrings.PadStartShape | apiHelpers/requestHandlers.ts:1308 | the padded text ends with the original and every added character is the pad character |
| JsStrings.ZFill | devel/test_work_token.py:22 | Python `zfill`: the result is as long as the text or the width, whichever is longer |
| JsStrings.ZFillIsPadStart | devel/test_work_token.py:22 | on a text without a sign, `zfill` is padding with zeros on the left |
| Validators.IsValidHash | apiHelpers/requestHandlers.ts:779-783 | valid exactly when the algorithm is "sha1" and the hash is 40 lower-case hex digits |
| Validators.WithinLength | apiHelpers/requestHandlers.ts:785-823 | a length check holds exactly when the text is no longer than the bound |
| Validators.LengthLimits | apiHelpers/requestHandlers.ts:785-823 | the bound of each field validator: zone name and user id 100, name, email, bucket URI and directory 200, research description and credentials 2000 |
| Validators.ValidHashPassesCoreChecks | apiHelpers/core.ts:21-34 | a hash the handler accepts also passes the core's hash checks, so an upload then fails only on the bucket or the size |
| Policy.GrantIndex | apiHelpers/requestHandlers.ts:1124 | `users.find`: the index of the first grant for the user, or none exactly when no grant names the user |
| Policy.FindGrant | apiHelpers/requestHandlers.ts:1124 | a grant is found exactly when one names the user, and the grant found is one of the zone's grants for that user |
| Policy.IsSiteAdmin | apiHelpers/requestHandlers.ts:1311-1314 | only the one hard-coded user id is the site administrator |
| Policy.FindGrantIsFirst | apiHelpers/requestHandlers.ts:1124 | the grant found is the first grant for the user in list order |
| Policy.UploadRule | apiHelpers/requestHandlers.ts:1114-1127 | upload is allowed exactly in the scratch zone, or for a signed-in user when the zone is publicly writable, the user owns it, or the user's first grant allows uploads |
| Policy.DownloadRule | apiHelpers/requestHandlers.ts:1129-1138 | download is allowed exactly to the owner, in a public zone, or when the user's first grant allows downloads |
| Policy.AdminRule | apiHelpers/requestHandlers.ts:1140-1145 | a user administers a zone exactly when they own it or their first grant says admin |
| Policy.NoGrantMeansPublicOnly | apiHelpers/requestHandlers.ts:1114-1145 | a user who neither owns the zone nor holds a grant gets only the public rights and is never a zone admin |
| Policy.OwnerHasEveryRight | apiHelpers/requestHandlers.ts:1114-1145 | the owner may always download and administer, and may upload whenever signed in |
| Policy.AppendedGrantIsShadowed | apiHelpers/requestHandlers.ts:1124 | a grant appended after an existing grant for the same user is never consulted |
| Policy.AppendedGrantKeepsDecisions | apiHelpers/requestHandlers.ts:1114-1145 | appending such a grant changes none of the three access decisions |
| Store.RemoveAbsentKey | apiHelpers/requestHandlers.ts:950-952 | removing a key that is not cached leaves the cache unchanged |
| Store.FindIndex | apiHelpers/requestHandlers.ts:865 | `findOne`'s position: the first matching document, or none exactly when nothing matches |
| Store.FindFrom | apiHelpers/requestHandlers.ts:865 | the first match at or after a position, or none exactly when nothing there matches |
| Store.FindOne | apiHelpers/requestHandlers.ts:865 | `findOne` returns a matching document, and nothing exactly when no document matches |
| Store.FindAll | apiHelpers/requestHandlers.ts:886 | `find(...).toArray()` returns only matching documents taken from the collection, and every matching document |
| Store.FindAllConcat | apiHelpers/requestHandlers.ts:886 | `find` on two runs of documents is `find` on the first followed by `find` on the second, so the matches keep collection order |
| Store.FindAllSingle | apiHelpers/requestHandlers.ts:886 | a single document is returned exactly when it matches |
| Store.FindAllCounts | apiHelpers/requestHandlers.ts:886 | each matching document appears as often as in the collection, any other not at all |
| Store.ApplyUpdate | apiHelpers/requestHandlers.ts:945-948 | `$set` fields take the new values, `$unset` fields disappear, every other field is unchanged |
| Store.UpdateOne | apiHelpers/requestHandlers.ts:945-948 | updates the first matching document only, and changes nothing when none matches |
| Store.InsertIfAbsent | apiHelpers/requestHandlers.ts:915-919 | an upsert with `$setOnInsert`: appends the document only when none has its key |
| Store.DeleteOne | apiHelpers/requestHandlers.ts:925 | removes the first matching document only, and changes nothing when none matches |
| Store.FirstMatchIsFound | apiHelpers/requestHandlers.ts:865 | a match with no match before it is the one `findOne` returns |
| Store.FindOneAfterAppend | apiHelpers/requestHandlers.ts:915-919 | appending a document that does not match leaves every lookup unchanged |
| Store.FindOneAfterReplace | apiHelpers/requestHandlers.ts:945-948 | replacing a document by one that matches neither before nor after leaves the lookup unchanged |
| Store.FindOneAfterRemove | apiHelpers/requestHandlers.ts:925 | deleting a document that does not match the lookup leaves its result unchanged |
| Store.RemovedIndex | apiHelpers/requestHandlers.ts:925 | after a deletion, the first match keeps its position when it was earlier and moves down one when it was later |
| Store.SplitUpdate | apiHelpers/requestHandlers.ts:936-944 | splits an update into `$set` and `$unset` parts that are disjoint, cover the update, and set exactly the given values |
| Store.SplitUpdateEffect | apiHelpers/requestHandlers.ts:936-948 | the split update sets the given fields, removes the fields given as undefined, and keeps the rest |
| Zones.ReadZone | apiHelpers/requestHandlers.ts:862-871 | the decoding of the first document with the name: it fails with "invalid zone in database" exactly when that document is not a zone, and the read is empty exactly when no document has the name |
| Zones.Shown | apiHelpers/requestHandlers.ts:874-876 | the zone as returned: unchanged when credentials are asked for, otherwise with credentials masked or absent |
| Zones.FetchZoneFixed | apiHelpers/requestHandlers.ts:851-878 | a fresh cached zone is served when the cache is consulted; otherwise the store is read and a zone found is cached unredacted |
| Zones.FetchZoneAsWritten | apiHelpers/requestHandlers.ts:851-878 | as written: a fresh cached zone is served when the cache is consulted and the cached entry is replaced by the shown (possibly masked) zone; otherwise the store is read and the shown zone is cached, stamped now; a miss or an invalid document leaves the cache alone |
| Zones.FetchZoneFaithful | apiHelpers/requestHandlers.ts:851-878 | while the cache agrees with the store, every fetch returns what a direct read returns, and the cache keeps agreeing |
| Zones.MaskedZoneServedAsWritten | apiHelpers/requestHandlers.ts:872-876 | as written: a fetch without credentials followed within 60 s by a cached fetch with credentials returns the mask, not the stored credentials |
| Zones.CredentialsSurviveMaskedRead | apiHelpers/requestHandlers.ts:872-876 | corrected: the first read is redacted and the later cached read returns the stored zone |
| Zones.DecodedZones | apiHelpers/requestHandlers.ts:880-910 | a list read succeeds exactly when every document is a zone; then it has one zone per document, in order, shown with or without credentials |
| Zones.DecodeZones | apiHelpers/requestHandlers.ts:887-896 | the loop over documents computes that list |
| Zones.DecodedZonesOwner | apiHelpers/requestHandlers.ts:880-897 | decoding documents that all have the same owner field gives zones of that owner |
| Zones.GetZonesAsWrittenLeaks | apiHelpers/requestHandlers.ts:158-188 | as written: listing all zones without a user id returns every zone's stored credentials |
| Zones.GetZonesAsWritten | apiHelpers/requestHandlers.ts:158-188 | as written: a listing for a user holds only that user's zones, and the listing without a user id is every zone with credentials |
| Zones.GetZones | apiHelpers/requestHandlers.ts:158-188 | corrected: a listing for a user holds only that user's zones; a successful listing has one zone per owned document, or one per document without a user id |
| Zones.GetZonesMasksCredentials | apiHelpers/requestHandlers.ts:158-188 | corrected: no listed zone carries credentials other than the mask, and the listing fails exactly when the source's fails |
| Zones.InsertedZoneReadsBack | apiHelpers/requestHandlers.ts:912-920 | a zone inserted under a new name is read back unchanged |
| Zones.InsertZoneKeepsFaithful | apiHelpers/requestHandlers.ts:912-920 | inserting a zone keeps the zone cache in agreement with the store |
| Zones.DeleteZoneKeepsFaithful | apiHelpers/requestHandlers.ts:922-930 | deleting a zone and dropping its cache entry keeps the cache in agreement |
| Zones.UpdateZoneKeepsFaithful | apiHelpers/requestHandlers.ts:932-953 | an update that leaves the name alone, plus dropping its cache entry, keeps the cache in agreement |
| Zones.ZoneDirectory.FetchZone | apiHelpers/requestHandlers.ts:851-878 | returns the corrected fetch's result and cache; with a faithful cache this is the masked direct read |
| Zones.ZoneDirectory.FetchZonesForUser | apiHelpers/requestHandlers.ts:880-897 | the decoded zones whose owner field is the user, in collection order, shown with or without credentials |
| Zones.ZoneDirectory.FetchAllZones | apiHelpers/requestHandlers.ts:899-910 | every decoded zone with credentials |
| Zones.ZoneDirectory.ListZones | apiHelpers/requestHandlers.ts:158-188 | `getZones`' listing, with the credentials masking of the corrected listing |
| Zones.ZoneDirectory.InsertZone | apiHelpers/requestHandlers.ts:912-920 | the upsert of the encoded zone; the cache stays faithful |
| Zones.ZoneDirectory.DeleteZone | apiHelpers/requestHandlers.ts:922-930 | deletes the first zone with the name and drops its cache entry; the cache stays faithful |
| Zones.ZoneDirectory.UpdateZone | apiHelpers/requestHandlers.ts:932-953 | applies the split update to the zone and drops its cache entry; the cache stays faithful when the name is not updated |
| Users.ReadUser | apiHelpers/requestHandlers.ts:976-984 | the decoding of the first document with the id: it fails with "invalid user in database" exactly when that document is not a user, and the read is empty exactly when no document has the id |
| Users.ReadUserByToken | apiHelpers/requestHandlers.ts:1011-1019 | the decoding of the first document with the api key, whose key is then that key; it fails exactly when that document is not a user, and is empty exactly when no document has the key |
| Users.FetchUserOutcome | apiHelpers/requestHandlers.ts:962-987 | a fresh cached user is served when the cache is consulted; otherwise the store is read and a user found is cached |
| Users.FetchUserForApiTokenOutcome | apiHelpers/requestHandlers.ts:996-1022 | an empty token finds nobody; otherwise as above, with the token cache |
| Users.GetUserOutcome | apiHelpers/requestHandlers.ts:458-500 | `getUser` finds a user exactly when the store has one; it returns that user with the api key masked, and caches the masked object |
| Users.FetchUserFaithful | apiHelpers/requestHandlers.ts:962-987 | with a cache that agrees with the store except for api keys, a fetch agrees with a direct read except for the api key; without the cache it equals the read |
| Users.FetchUserForApiTokenFaithful | apiHelpers/requestHandlers.ts:996-1022 | with a faithful token cache, a token lookup returns exactly the direct read, and the cache stays faithful |
| Users.GetUserKeepsFaithful | apiHelpers/requestHandlers.ts:458-500 | caching the masked user keeps the user cache faithful except for api keys |
| Users.WithoutUser | apiHelpers/requestHandlers.ts:1033-1040 | drops exactly the token-cache entries whose user has the id |
| Users.InsertUserKeepsFaithful | apiHelpers/requestHandlers.ts:1024-1041 | inserting a user plus the two invalidations keeps both caches faithful |
| Users.UpdateUserKeepsFaithful | apiHelpers/requestHandlers.ts:1043-1069 | an update that leaves the id alone and sets no cached api key, plus the two invalidations, keeps both caches faithful |
| Users.UserDirectory.FetchUser | apiHelpers/requestHandlers.ts:962-987 | returns the fetch's result and new cache; with a faithful cache it agrees with the direct read |
| Users.UserDirectory.FetchUserForApiToken | apiHelpers/requestHandlers.ts:996-1022 | returns the token fetch's result and cache; with a faithful cache it is the direct read |
| Users.UserDirectory.GetUser | apiHelpers/requestHandlers.ts:458-500 | returns the masked user and caches it; the caches stay faithful |
| Users.UserDirectory.DropTokensOf | apiHelpers/requestHandlers.ts:1033-1040 | the loop over token-cache keys leaves exactly the entries of other users |
| Users.UserDirectory.InsertUser | apiHelpers/requestHandlers.ts:1024-1041 | the upsert of the encoded user, with its user-cache entry and its token-cache entries dropped |
| Users.UserDirectory.UpdateUser | apiHelpers/requestHandlers.ts:1043-1069 | applies the split update to the user and drops its cache entries |
| WorkToken.HexValue | apiHelpers/requestHandlers.ts:1306 | a hex digit's value is below 16, and is 0 only for '0' |
| WorkToken.ToBinary | apiHelpers/requestHandlers.ts:1306 | `toString(2)` / `bin(...)[2:]`: a non-empty string of binary digits without a sign |
| WorkToken.Nibble | apiHelpers/requestHandlers.ts:1306 | the four bits of a hex digit |
| WorkToken.Nibbles | apiHelpers/requestHandlers.ts:1306 | four bits per hex digit |
| WorkToken.NibblesValue | apiHelpers/requestHandlers.ts:1306 | the bits, read as a binary number, are the number the hex digits denote |
| WorkToken.PaddedBinaryRestores | apiHelpers/requestHandlers.ts:1304-1309 | converting a bit string to a number, back to binary and padding with zeros to its length gives back the bit string |
| WorkToken.Sha1BitsAreNibbles | apiHelpers/requestHandlers.ts:1304-1309 | the server's SHA-1 bits are exactly the 160 bits of the hex digest, leading zeros included |
| WorkToken.ServerCheckInHex | apiHelpers/requestHandlers.ts:1288-1296 | the work token passes exactly when the digest of hash plus token starts with three '0' digits and a digit below 8, which is 13 zero bits |
| WorkToken.LeadingZeroBits | apiHelpers/requestHandlers.ts:1288-1296 | 13 leading zero bits are three zero hex digits and a fourth digit below 8 |
| WorkToken.ClientBitsAreServerBits | devel/test_work_token.py:19-22 | the Python client's bit string is the server's |
| WorkToken.ClientAgreesWithServer | devel/test_work_token.py:13-16 | the client's check at difficulty 13 passes exactly when the server's check passes |
| WorkToken.LowerDifficultyStillPasses | devel/test_work_token.py:13-16 | a token that passes at some difficulty passes at every lower one |
| WorkToken.CreateWorkToken | devel/test_work_token.py:6-10 | returns the first candidate that passes the check, or nothing exactly when no candidate passes |
| SignedUrls.JoinKeys | apiHelpers/signedUrls.ts:121-126 | joining with an empty second part gives the first part; otherwise the prefix ends in one '/' |
| SignedUrls.JoinKeysCases | apiHelpers/signedUrls.ts:121-126 | the four cases: empty first, empty second, first ending in '/', otherwise a '/' is inserted |
| SignedUrls.ShardedPathOfLongHash | apiHelpers/signedUrls.ts:22-26 | a hash of six or more characters is stored under `alg/h0h1/h2h3/h4h5/hash` |
| SignedUrls.ShortHashKey | apiHelpers/signedUrls.ts:22-26 | a two-character hash puts "undefined" into the path instead of failing |
| SignedUrls.ObjectKeyShape | apiHelpers/signedUrls.ts:22-26 | the object key is the zone directory, joined to the sharded path, and ends with the hash |
| SignedUrls.ObjectKeyInjective | apiHelpers/signedUrls.ts:22-26 | two SHA-1 hashes with the same object key are the same hash |
| SignedUrls.ConfigError | apiHelpers/signedUrls.ts:28-33 | no error exactly when bucket URI and credentials are set; the missing bucket URI is reported first |
| SignedUrls.CreateSignedDownloadUrl | apiHelpers/signedUrls.ts:9-56 | fails on an algorithm other than sha1 and then on configuration; otherwise reports whether the object is in the bucket, and a signed URL and its size when it is |
| SignedUrls.CheckFileExists | apiHelpers/signedUrls.ts:58-84 | fails on configuration; otherwise tells whether the object is in the bucket |
| SignedUrls.CreateSignedUploadUrl | apiHelpers/signedUrls.ts:86-119 | fails on an algorithm other than sha1 and then on configuration; otherwise signs a URL for the object key and size |
| SignedUrls.SameKeyEverywhere | apiHelpers/signedUrls.ts:9-119 | upload, download and existence checks all address the same object key |
| Core.MaxSizeForZone | apiHelpers/core.ts:293-298 | 200 MB for the "default" zone, 1 GB for every other zone |
| Core.UploadPrecheck | apiHelpers/core.ts:21-34 | upload is refused exactly when the bucket URI is unset, the file is too large, the algorithm is not sha1 or the hash is malformed, and each refusal carries the source's message, in that order |
| Core.SizeLimitIsInclusive | apiHelpers/core.ts:24 | a file exactly at the limit is accepted and one byte more is refused |
| Core.InitiateUploadOutcome | apiHelpers/core.ts:9-71 | an upload starts exactly when the checks and configuration pass; an object already in the bucket is reported as existing with no record; otherwise a signed URL is returned and an initiate record appended |
| Core.PresentObjectIsNotUploadedAgain | apiHelpers/core.ts:35-45 | an object already in the bucket gets no upload record and no upload URL |
| Core.FindRecordedDownload | apiHelpers/core.ts:265-291 | finds a download record of the zone, algorithm and hash newer than the bound, or none exactly when no record matches |
| Core.CacheKeyInjective | apiHelpers/core.ts:130 | two SHA-1 lookups share a memory-cache key only for the same zone and hash |
| Core.ColdLookup | apiHelpers/core.ts:147-194 | an uncached lookup reuses a recent record, or signs a fresh URL, records the download and caches it; it fails on createSignedDownloadUrl's algorithm and configuration errors |
| Core.FindFileOutcome | apiHelpers/core.ts:112-203 | fails when the bucket URI is unset; a fresh memory-cache entry is served as is; otherwise the uncached lookup runs |
| Core.FindFileIsLocal | apiHelpers/core.ts:112-203 | a lookup changes only its own cache entry and appends at most one record, exactly when a freshly signed URL is found |
| Core.FindFileKeepsCacheBacked | apiHelpers/core.ts:112-203 | every cached URL stays backed by a download record with the same URL, key and size |
| Core.FoundUrlIsRecorded | apiHelpers/core.ts:112-203 | every URL reported as found comes from a download record of the same zone, algorithm and hash |
| Core.RepeatLookupHitsMemory | apiHelpers/core.ts:129-145 | once a cold lookup finds an object, any repeat within ten minutes is a memory hit with the same URL and no new record |
| Core.Gateway.RecordUpload | apiHelpers/core.ts:211-236 | appends the upload record and changes nothing else |
| Core.Gateway.RecordDownload | apiHelpers/core.ts:238-263 | appends the download record and changes nothing else |
| Core.Gateway.InitiateUpload | apiHelpers/core.ts:9-71 | returns the initiate outcome and appends its records; the URL cache and download records are untouched |
| Core.Gateway.FinalizeUpload | apiHelpers/core.ts:73-99 | fails when the bucket URI is unset; otherwise appends one finalize record |
| Core.Gateway.FindFile | apiHelpers/core.ts:112-203 | returns the lookup's outcome, with its cache and appended records; every cached URL stays backed |
| Core.Gateway.ResolveUncached | apiHelpers/core.ts:147-194 | carries out the uncached lookup and only appends download records |
| Core.Gateway.FetchCold | apiHelpers/core.ts:164-194 | signs, records and caches a fresh URL, only appending download records |
| Handlers.WorkTokenBeforeLookups | apiHelpers/requestHandlers.ts:543-630 | a bad work token is refused before any user or zone is looked up |
| Handlers.InitiateAdmission | apiHelpers/requestHandlers.ts:543-630 | an upload is admitted exactly when the hash is valid, the work token passes, the zone is found, a given token names a user whose profile is complete, and that caller (or "" in the scratch zone without a token) may upload there; no read threw |
| Handlers.FinalizeAdmitsWhatInitiateAdmits | apiHelpers/requestHandlers.ts:633-695 | every upload the initiate handler admits is also admitted by the finalize handler |
| Handlers.FinalizeIgnoresProfiles | apiHelpers/requestHandlers.ts:633-695 | finalize never reads user profiles |
| Handlers.FindFileAdmission | apiHelpers/requestHandlers.ts:698-765 | a lookup is admitted exactly when the hash is valid, the zone is found, a given token names a user, and the zone is public or that user may download; no read threw |
| Handlers.UnknownTokenRefusedEverywhere | apiHelpers/requestHandlers.ts:543-765 | a token that names nobody is refused by all three handlers: by initiate and finalize after the token lookup alone (initiate once the work token passes), and by the lookup handler even for a public zone |
| Handlers.InitiateReadErrorsAreThrown | apiHelpers/requestHandlers.ts:543-630 | every read but the last succeeded; a read that throws ends the initiate request with its error (the handler's 500), and every thrown error but the work-token one is that read's |
| Handlers.FinalizeReadErrorsAreThrown | apiHelpers/requestHandlers.ts:633-695 | the same for the finalize request |
| Handlers.FindFileReadErrorsAreThrown | apiHelpers/requestHandlers.ts:698-765 | the same for the file lookup request |
| Handlers.UserIdOf | apiHelpers/requestHandlers.ts:825-833 | `getUserIdFromApiToken`: a thrown read passes through, no user gives "", a user gives its id |
| Handlers.CachedReadsMatchStore | apiHelpers/requestHandlers.ts:565-598 | with faithful caches, the handlers' cached zone, user and token reads answer what the collections hold, up to the user's api key |
| Handlers.GatesIgnoreApiKeys | apiHelpers/requestHandlers.ts:573-593 | user reads that differ only in api keys give the same initiate decision |
| Handlers.InitiateFileUpload | apiHelpers/requestHandlers.ts:543-630 | a refused request changes nothing; an admitted one runs the core's upload start |
| Handlers.FinalizeFileUpload | apiHelpers/requestHandlers.ts:633-695 | a refused request changes nothing; an admitted one in a zone with a bucket URI appends one finalize record and answers true; one in a zone without a bucket URI fails with the bucket-URI error and changes nothing |
| Handlers.FindFileRequest | apiHelpers/requestHandlers.ts:698-765 | a refused request changes nothing; an admitted one runs the core's lookup with its cache and record effects |
| Usage.DownloadEvents | apiHelpers/requestHandlers.ts:1204-1207 | one event per download record, with its user, zone, time and size |
| Usage.UploadEvents | apiHelpers/requestHandlers.ts:1208-1212 | at most one event per record, each from an initiate-stage record |
| Usage.UploadEventsConcat | apiHelpers/requestHandlers.ts:1208-1212 | the events of two runs of records are the events of the first followed by those of the second: store order is kept |
| Usage.UploadEventsSingle | apiHelpers/requestHandlers.ts:1208-1212 | a record yields one event exactly when it is an initiate-stage record |
| Usage.FindRow | apiHelpers/requestHandlers.ts:1225 | the first row with the key, or none exactly when no row has it |
| Usage.TallyInto | apiHelpers/requestHandlers.ts:1222-1261 | the loop with its key lookup table computes the report rows, and the table stays in step with the rows |
| Usage.AggregateUsage | apiHelpers/requestHandlers.ts:1213-1261 | the report is downloads tallied first, then initiate-stage uploads |
| Usage.UsageKeysDistinct | apiHelpers/requestHandlers.ts:1213-1261 | no two report rows share a user, zone and day key |
| Usage.UsageRowOrder | apiHelpers/requestHandlers.ts:1238 | rows appear in the order their keys first occur among downloads, then uploads |
| Usage.UsageCounts | apiHelpers/requestHandlers.ts:1225-1260 | each row's counts and byte totals equal the number and total size of the events with its key |
| Usage.FinalizeRecordsNotCounted | apiHelpers/requestHandlers.ts:1211 | adding a finalize-stage upload record does not change the report |
| Usage.UsageRowOrigins | apiHelpers/requestHandlers.ts:1229-1258 | every row's user, zone and day come from some event |
| Usage.ReportForOneUser | apiHelpers/requestHandlers.ts:1204-1212 | when every record is one user's, every row is that user's |
| Usage.UsageKeyInjective | apiHelpers/requestHandlers.ts:1224 | for user ids and days without ':', the key determines user, zone and day |
| Usage.UsageAccessRule | apiHelpers/requestHandlers.ts:1192-1203 | the site administrator reads any report, and anyone else only the report about themselves |
| StringOrder.LessIrreflexive | src/pages/UsagePage/UsagePage.tsx:18-19 | no text sorts before itself |
| StringOrder.LessTrichotomy | src/pages/UsagePage/UsagePage.tsx:18-19 | two texts are equal or exactly one sorts first |
| StringOrder.LessTransitive | src/pages/UsagePage/UsagePage.tsx:18-19 | the text order is transitive |
| UsagePage.UsagesOn | src/pages/UsagePage/UsagePage.tsx:21 | keeps only rows of the day, never more rows than the input |
| UsagePage.UsagesOnConcat | src/pages/UsagePage/UsagePage.tsx:21 | filtering two runs of rows is filtering the first and then the second: input order is kept |
| UsagePage.UsagesOnSingle | src/pages/UsagePage/UsagePage.tsx:21 | a row is kept exactly when it is of the day |
| UsagePage.GroupsFor | src/pages/UsagePage/UsagePage.tsx:20-26 | one group per day, holding that day's rows in their order |
| UsagePage.GroupSizesCount | src/pages/UsagePage/UsagePage.tsx:20-26 | grouping by a list of days that holds each row's day once keeps every row exactly once |
| UsagePage.SortDays | src/pages/UsagePage/UsagePage.tsx:18-19 | `sort()`: ascending and a permutation |
| UsagePage.SortedDistinctDays | src/pages/UsagePage/UsagePage.tsx:14-19 | sorting distinct days gives them in strictly increasing order, with the same members |
| UsagePage.SortDaysMembers | src/pages/UsagePage/UsagePage.tsx:18-19 | sorting keeps exactly the same days |
| UsagePage.DaysInOrderShape | src/pages/UsagePage/UsagePage.tsx:14-17 | the set of days has no repeats and holds exactly the days of some row |
| UsagePage.CollectDays | src/pages/UsagePage/UsagePage.tsx:14-17 | the loop collects the days in order of first appearance |
| UsagePage.AllDays | src/pages/UsagePage/UsagePage.tsx:12-27 | computes the day groups |
| UsagePage.DayGroupsAscending | src/pages/UsagePage/UsagePage.tsx:12-27 | the groups' days are strictly increasing |
| UsagePage.DayGroupsCoverDays | src/pages/UsagePage/UsagePage.tsx:12-27 | there is a group for a day exactly when some row has that day |
| UsagePage.DayGroupsContents | src/pages/UsagePage/UsagePage.tsx:12-27 | each group holds exactly the rows of its day, and is never empty |
| UsagePage.DayGroupsPartition | src/pages/UsagePage/UsagePage.tsx:12-27 | a row is in a group exactly when the group's day is the row's day |
| UsagePage.DayGroupsSizes | src/pages/UsagePage/UsagePage.tsx:12-27 | together the groups hold as many rows as the input |
| UsagePage.Compare | src/pages/UsagePage/UsagePage.tsx:54-60 | the comparator returns -1, 0 or 1 |
| UsagePage.CompareOrders | src/pages/UsagePage/UsagePage.tsx:54-60 | negative exactly when the zone sorts first, or zones are equal and the user sorts first; zero exactly for equal zone and user |
| UsagePage.CompareAntisymmetric | src/pages/UsagePage/UsagePage.tsx:54-60 | swapping the arguments negates the result |
| UsagePage.CompareTransitive | src/pages/UsagePage/UsagePage.tsx:54-60 | the comparator's order is transitive |
| UsagePage.SortUsages | src/pages/UsagePage/UsagePage.tsx:53-61 | sorts a fresh copy by the comparator, as a permutation, and leaves the input untouched |
| UsagePage.InsertAt | src/pages/UsagePage/UsagePage.tsx:54-60 | one insertion step: the first i+1 entries become sorted and the array is a permutation of the old one |
| RecentZones.Without | src/pages/HomePage/HomePage.tsx:122 | the filtered list no longer holds the zone and is no longer than before |
| RecentZones.WithoutCounts | src/pages/HomePage/HomePage.tsx:122 | every other zone occurs as often as before |
| RecentZones.WithoutConcat | src/pages/HomePage/HomePage.tsx:122 | the filter keeps list order: filtering two runs is filtering each and joining them |
| RecentZones.WithoutSingle | src/pages/HomePage/HomePage.tsx:122 | a single name is kept exactly when it is not the reported zone |
| RecentZones.Take | src/pages/HomePage/HomePage.tsx:124 | `slice(0, n)`: the first n entries, or all when fewer |
| RecentZones.ReportedShape | src/pages/HomePage/HomePage.tsx:122-124 | the reported zone comes first and only once, at most ten entries remain, and the rest are the first nine other entries in their old order |
| RecentZones.ReportIsIdempotent | src/pages/HomePage/HomePage.tsx:122-124 | reporting the same zone twice is reporting it once |
| RecentZones.ReportKeepsDistinct | src/pages/HomePage/HomePage.tsx:122-124 | a list without repeats stays without repeats |
| RecentZones.RecentZoneList.ReportRecentZone | src/pages/HomePage/HomePage.tsx:111-126 | the stored list becomes the reported list, and remains short and without repeats |
| RecentZones.AssertListOfStrings | src/pages/HomePage/HomePage.tsx:128-137 | passes exactly on an array of strings; otherwise fails with "Expected array" or "Expected string" |
| Sequences.DistinctByCount | src/pages/HomePage/HomePage.tsx:122-124 | a list without repeats holds each value at most once |
| Sequences.CountGivesDistinct | src/pages/HomePage/HomePage.tsx:122-124 | a list holding each value at most once has no repeats |

## Left out

- HTTP: request parsing, CORS, status codes and response shapes are not modelled. Handler refusals are values of `HandlerError`.
- MongoDB: connections, indexes and concurrency are left out. A collection is a sequence of documents in insertion order, and `findOne` returns the first match.
- Object store, signer and record store: all three are total in the model (`ObjectStore` is a map, `Signer` a pair of total functions, and appending a record always succeeds). In the source, `objectExists` (apiHelpers/signedUrls.ts:38, 82), URL signing (apiHelpers/signedUrls.ts:48, 113) and `insertOne`/`findOne` on the record collections (apiHelpers/core.ts:225, 252, 279) can throw. The handler then answers 500 after the earlier steps have run: a failed `recordDownload` leaves no cache entry, and a failed signing leaves no upload record. Those failures are not modelled, so the "exactly when" contracts of Core.InitiateUploadOutcome, Core.ColdLookup, SignedUrls.CreateSignedDownloadUrl, SignedUrls.CheckFileExists and SignedUrls.CreateSignedUploadUrl hold only for calls that do not throw.
- Identity: GitHub identity (`getUserIdForGitHubAccessToken`) is not modelled. Neither are the handlers that only need it: adding and listing users, resetting api keys, setting user info, adding zones.
- Zone settings: `getZone`, `getZones`, `deleteZone` and `setZoneInfo` are covered through the directory operations they call. Their GitHub authentication and admin checks are left out, and so is `getZones`' refusal of a user id longer than 100 characters with "Invalid user ID" (requestHandlers.ts:171-174, through `isValidUserId`).
- Randomness: random api keys and ids are not modelled. The client's `while True` loop over `os.urandom` becomes a search over a finite list of candidate tokens.
- Timing: the benchmark loop in `devel/test_work_token.py` is left out.
- SHA-1, URL signing, the bucket listing and the timestamp-to-day function are parameters. The real algorithms are not modelled; the SHA-1 parameter is typed to return 40 lower-case hex digits.
- Zone grants: a stored grant list is a sequence of well-formed `ZoneUser` values, so a zone document whose `users` array holds a malformed grant, which `isArrayOf(isKacheryZoneUser)` rejects (types.ts:30), cannot be represented.
- JSON: key-sorted serialisation (`JSONStringifyDeterministic`) and `computeUserStats` are not part of this model.
- `fetchDownloadRecords` and `fetchUploadRecords` are not part of this model. The usage report takes the record lists (already filtered by user and zone) as inputs.
- Clock: the source calls `Date.now()` several times within one operation; the model uses one `now` per operation.
- Numbers: JavaScript numbers are modelled as unbounded integers. Floating point, safe-integer limits and the GB division in the size message's text are not modelled.
- Strings: JavaScript compares strings by UTF-16 code unit, and `.length` counts UTF-16 code units; the model compares and counts `char`s, so a length limit on text outside the Basic Multilingual Plane is not modelled.
- Sorting: the algorithm behind `Array.prototype.sort` is not modelled. The model sorts by insertion, which produces the comparator's order; stability is not claimed.
- Browser storage: `localStorage` is not modelled; the stored list is the object's field, and the model covers a stored list of strings only. Three paths of `reportRecentZone` (HomePage.tsx:116-125) are not modelled: text that `JSON.parse` rejects, which leaves the empty list (the `catch` at 119-121 only logs); a parsed array holding non-strings, which `assertListOfStrings` rejects but which stays assigned and is filtered, extended and stored again; and a parsed non-array such as `null`, `{}` or a number, on which `.filter` at line 122 throws, so nothing is stored.
- Zones.ZoneDirectory.UpdateZone: keeps the cache faithful only when the update does not set `zoneName`. `setZoneInfo`, its only caller, never sets it.
- Users.UserDirectory.UpdateUser: keeps the caches faithful only when the update leaves `userId` alone and any new api key is not already a cached token. The source draws new keys at random, so a clash is not expected.
- Users.UserDirectory.GetUser: the source masks the api key inside the cached object. The model keeps that aliasing and promises cache agreement with the store only up to api keys.
- Zones.ZoneDirectory.FetchZone: runs the corrected fetch of the first finding, which caches the zone intact and masks only the returned copy. The in-place masking of the cached object as written (requestHandlers.ts:872-876) is modelled by `Zones.FetchZoneAsWritten` on values; the class does not reproduce the masked cache entry.
- Zones.ZoneDirectory.ListZones: masks credentials in both branches, as the corrected listing of the second finding does. The unmasked listing without a user id as written is `Zones.GetZonesAsWritten`.
- Handlers directory: the gates read zones, users and token owners through the function-valued `Directory`, as one snapshot per request. The cache entries those reads leave behind are modelled in `Zones` and `Users` but are not threaded through the gates. `Handlers.CachedReadsMatchStore` and `Handlers.GatesIgnoreApiKeys` state that, with faithful caches, the cached reads answer what the collections hold (`Handlers.StoreDirectory`), up to api keys that the gates never read.

## Findings

| source | as written | input that shows it | evidently intended | confidence | as-written member | corrected member |
|---|---|---|---|---|---|---|
| apiHelpers/requestHandlers.ts:872-876 | `fetchZone` stores the zone object in the memory cache, then masks `credentials` on that same object | fetch zone Z with `includeCredentials` false, then within 60 s fetch Z with `includeCredentials` true and `checkCache` true (for example `getZone` followed by `findFile`) | the cache keeps the stored credentials, and only the returned copy is masked | not executed | Zones.MaskedZoneServedAsWritten | Zones.CredentialsSurviveMaskedRead |
| apiHelpers/requestHandlers.ts:158-188 | `getZones` without a `userId` returns `fetchAllZones`, whose zones come with credentials unmasked | a `getZones` request with no `userId`, while a zone stores credentials | credentials are masked as they are for a user's zones (lines 892-894) | not executed | Zones.GetZonesAsWrittenLeaks | Zones.GetZonesMasksCredentials |
