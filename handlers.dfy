/**
 * The request gates of the three transfer handlers (apiHelpers/requestHandlers.ts):
 * `initiateFileUploadHandler`, `finalizeFileUploadHandler` and
 * `findFileHandler`. Each one checks its request in a fixed order, looking
 * up the caller and the zone as it goes, and either refuses or hands the
 * zone and the caller's id to the core operation.
 */
module Handlers {
  import opened Wrappers
  import opened JsStrings
  import opened Types
  import opened SignedUrls
  import opened Core
  import opened Policy
  import opened Validators
  import opened WorkToken
  import Store
  import Zones
  import Users

  /** A directory read a handler performs, in the order it performs them. */
  datatype Lookup = TokenLookup(apiToken: string) | UserLookup(userId: string) | ZoneLookup(zoneName: string)

  /**
   * The directory as the handlers read it: `getUserIdFromApiToken` ("" for
   * no user), `fetchUser` and `fetchZone`. Each read may throw, as the
   * schema checks of the directory do.
   */
  datatype Directory = Directory(
    userIdForToken: string -> Result<string, Error>,
    user: string -> Result<Option<User>, Error>,
    zone: string -> Result<Option<Zone>, Error>)

  /** A read that found its record. */
  predicate Found<T>(r: Result<Option<T>, Error>) {
    r.Success? && r.value.Some?
  }

  /** The error a lookup threw, if it threw. */
  function LookupError(dir: Directory, l: Lookup): Option<Error> {
    match l
    case TokenLookup(t) => if dir.userIdForToken(t).Failure? then Some(dir.userIdForToken(t).error) else None
    case UserLookup(id) => if dir.user(id).Failure? then Some(dir.user(id).error) else None
    case ZoneLookup(n) => if dir.zone(n).Failure? then Some(dir.zone(n).error) else None
  }

  /** A handler's own refusals, one per response message. */
  datatype Refusal =
    | InvalidHashRequest
    | ApiTokenRequired(zoneName: string)
    | NoUserForToken
    | UserNotFound(userId: string)
    | EmailNotSet(userId: string)
    | ResearchDescriptionNotSet(userId: string)
    | NameNotSet(userId: string)
    | ZoneNotFound(zoneName: string)
    | UploadNotAllowed
    | DownloadTokenRequired
    | DownloadNotAllowed

  /** A refusal, or an error thrown inside the handler's `try`. */
  datatype HandlerError = Refused(refusal: Refusal) | Thrown(error: Error)

  /** The caller and zone a request was admitted with. */
  datatype Admission = Admission(userId: string, zone: Zone)

  /** A gate's decision together with the lookups it made. */
  datatype Gate<+T> = Gate(decision: Result<T, HandlerError>, lookups: seq<Lookup>)

  /** A signed-in uploader has a complete profile. */
  predicate ProfileComplete(u: User) {
    u.email != "" && Truthy(u.researchDescription) && u.name != ""
  }

  /** The caller of an upload request: "" without a token, else the token's user with a complete profile. */
  function Uploader(dir: Directory, apiToken: Option<string>): Gate<string> {
    if !Truthy(apiToken) then Gate(Success(""), [])
    else
      match dir.userIdForToken(apiToken.value)
      case Failure(e) => Gate(Failure(Thrown(e)), [TokenLookup(apiToken.value)])
      case Success(userId) =>
        if userId == "" then Gate(Failure(Refused(NoUserForToken)), [TokenLookup(apiToken.value)])
        else
          var lookups := [TokenLookup(apiToken.value), UserLookup(userId)];
          match dir.user(userId)
          case Failure(e) => Gate(Failure(Thrown(e)), lookups)
          case Success(None) => Gate(Failure(Refused(UserNotFound(userId))), lookups)
          case Success(Some(u)) =>
            if u.email == "" then Gate(Failure(Refused(EmailNotSet(userId))), lookups)
            else if !Truthy(u.researchDescription) then Gate(Failure(Refused(ResearchDescriptionNotSet(userId))), lookups)
            else if u.name == "" then Gate(Failure(Refused(NameNotSet(userId))), lookups)
            else Gate(Success(userId), lookups)
  }

  /** The zone lookup and upload permission shared by both upload handlers. */
  function UploadZone(dir: Directory, zoneName: string, userId: string, before: seq<Lookup>): Gate<Admission> {
    var lookups := before + [ZoneLookup(zoneName)];
    match dir.zone(zoneName)
    case Failure(e) => Gate(Failure(Thrown(e)), lookups)
    case Success(None) => Gate(Failure(Refused(ZoneNotFound(zoneName))), lookups)
    case Success(Some(zone)) =>
      if !CanUpload(zone, userId) then Gate(Failure(Refused(UploadNotAllowed)), lookups)
      else Gate(Success(Admission(userId, zone)), lookups)
  }

  /** `initiateFileUploadHandler` up to its call of `initiateUpload`. */
  function InitiateGate(dir: Directory, sha1: Sha1, apiToken: Option<string>, zoneName: string,
                        hash: string, hashAlg: string, workToken: string): Gate<Admission>
  {
    if !IsValidHash(hash, hashAlg) then Gate(Failure(Refused(InvalidHashRequest)), [])
    else if !Truthy(apiToken) && zoneName != ScratchZone then Gate(Failure(Refused(ApiTokenRequired(zoneName))), [])
    else if CheckWorkToken(sha1, workToken, hash).Fail? then Gate(Failure(Thrown(InvalidWorkToken)), [])
    else
      var caller := Uploader(dir, apiToken);
      if caller.decision.Failure? then Gate(Failure(caller.decision.error), caller.lookups)
      else UploadZone(dir, zoneName, caller.decision.value, caller.lookups)
  }

  /** `finalizeFileUploadHandler` up to its call of `finalizeUpload`: no work token, no profile check. */
  function FinalizeGate(dir: Directory, apiToken: Option<string>, zoneName: string,
                        hash: string, hashAlg: string): Gate<Admission>
  {
    if !IsValidHash(hash, hashAlg) then Gate(Failure(Refused(InvalidHashRequest)), [])
    else if !Truthy(apiToken) && zoneName != ScratchZone then Gate(Failure(Refused(ApiTokenRequired(zoneName))), [])
    else if !Truthy(apiToken) then UploadZone(dir, zoneName, "", [])
    else
      match dir.userIdForToken(apiToken.value)
      case Failure(e) => Gate(Failure(Thrown(e)), [TokenLookup(apiToken.value)])
      case Success(userId) =>
        if userId == "" then Gate(Failure(Refused(NoUserForToken)), [TokenLookup(apiToken.value)])
        else UploadZone(dir, zoneName, userId, [TokenLookup(apiToken.value)])
  }

  /** The zone and the (possibly absent) caller a download was admitted with. */
  datatype DownloadAdmission = DownloadAdmission(userId: Option<string>, zone: Zone)

  /** `findFileHandler` up to its call of `findFile`: the zone is looked up before the caller. */
  function FindFileGate(dir: Directory, apiToken: Option<string>, zoneName: string,
                        hash: string, hashAlg: string): Gate<DownloadAdmission>
  {
    if !IsValidHash(hash, hashAlg) then Gate(Failure(Refused(InvalidHashRequest)), [])
    else
      match dir.zone(zoneName)
      case Failure(e) => Gate(Failure(Thrown(e)), [ZoneLookup(zoneName)])
      case Success(None) => Gate(Failure(Refused(ZoneNotFound(zoneName))), [ZoneLookup(zoneName)])
      case Success(Some(zone)) =>
        if !Truthy(apiToken) then
          if !zone.publicDownload then Gate(Failure(Refused(DownloadTokenRequired)), [ZoneLookup(zoneName)])
          else Gate(Success(DownloadAdmission(None, zone)), [ZoneLookup(zoneName)])
        else
          var lookups := [ZoneLookup(zoneName), TokenLookup(apiToken.value)];
          match dir.userIdForToken(apiToken.value)
          case Failure(e) => Gate(Failure(Thrown(e)), lookups)
          case Success(userId) =>
            if userId == "" then Gate(Failure(Refused(NoUserForToken)), lookups)
            else if !zone.publicDownload && !CanDownload(zone, userId) then Gate(Failure(Refused(DownloadNotAllowed)), lookups)
            else Gate(Success(DownloadAdmission(Some(userId), zone)), lookups)
  }

  /**
   * The work token is checked before anything is looked up: a request that
   * gets as far as a lookup carries a valid hash and a valid work token, and
   * one with a bad token is turned away with no lookup at all.
   */
  lemma WorkTokenBeforeLookups(dir: Directory, sha1: Sha1, apiToken: Option<string>, zoneName: string,
                               hash: string, hashAlg: string, workToken: string)
    ensures var gate := InitiateGate(dir, sha1, apiToken, zoneName, hash, hashAlg, workToken);
      gate.lookups != [] ==> IsValidHash(hash, hashAlg) && CheckWorkToken(sha1, workToken, hash).Pass?
    ensures (IsValidHash(hash, hashAlg) && (Truthy(apiToken) || zoneName == ScratchZone)
      && CheckWorkToken(sha1, workToken, hash).Fail?) ==>
      InitiateGate(dir, sha1, apiToken, zoneName, hash, hashAlg, workToken) == Gate(Failure(Thrown(InvalidWorkToken)), [])
  {
  }

  /**
   * What an admitted upload request satisfies: a valid hash, a valid work
   * token, the zone as the directory has it, and upload permission for the
   * caller, who is either the token's user with a complete profile or, in
   * the scratch zone only, the anonymous caller "". No read threw.
   */
  lemma InitiateAdmission(dir: Directory, sha1: Sha1, apiToken: Option<string>, zoneName: string,
                          hash: string, hashAlg: string, workToken: string)
    ensures var gate := InitiateGate(dir, sha1, apiToken, zoneName, hash, hashAlg, workToken);
      gate.decision.Success? <==>
        && IsValidHash(hash, hashAlg)
        && CheckWorkToken(sha1, workToken, hash).Pass?
        && Found(dir.zone(zoneName))
        && (if Truthy(apiToken) then
              && dir.userIdForToken(apiToken.value).Success?
              && var userId := dir.userIdForToken(apiToken.value).value;
                 userId != "" && Found(dir.user(userId)) && ProfileComplete(dir.user(userId).value.value)
                 && CanUpload(dir.zone(zoneName).value.value, userId)
            else zoneName == ScratchZone && CanUpload(dir.zone(zoneName).value.value, ""))
    ensures var gate := InitiateGate(dir, sha1, apiToken, zoneName, hash, hashAlg, workToken);
      gate.decision.Success? ==>
        && dir.zone(zoneName) == Success(Some(gate.decision.value.zone))
        && CanUpload(gate.decision.value.zone, gate.decision.value.userId)
        && (if Truthy(apiToken) then dir.userIdForToken(apiToken.value) == Success(gate.decision.value.userId)
            else gate.decision.value.userId == "")
  {
  }

  /**
   * Finalizing needs the same permission as initiating but neither a work
   * token nor a complete profile: whenever initiating would be admitted,
   * finalizing is admitted with the same caller and zone.
   */
  lemma FinalizeAdmitsWhatInitiateAdmits(dir: Directory, sha1: Sha1, apiToken: Option<string>, zoneName: string,
                                         hash: string, hashAlg: string, workToken: string)
    ensures InitiateGate(dir, sha1, apiToken, zoneName, hash, hashAlg, workToken).decision.Success? ==>
      FinalizeGate(dir, apiToken, zoneName, hash, hashAlg).decision ==
      InitiateGate(dir, sha1, apiToken, zoneName, hash, hashAlg, workToken).decision
  {
  }

  /** The finalize gate never reads a user record, so a user's profile cannot affect it. */
  lemma FinalizeIgnoresProfiles(dir: Directory, user': string -> Result<Option<User>, Error>, apiToken: Option<string>,
                                zoneName: string, hash: string, hashAlg: string)
    ensures FinalizeGate(dir.(user := user'), apiToken, zoneName, hash, hashAlg) ==
      FinalizeGate(dir, apiToken, zoneName, hash, hashAlg)
    ensures forall k | 0 <= k < |FinalizeGate(dir, apiToken, zoneName, hash, hashAlg).lookups| ::
      !FinalizeGate(dir, apiToken, zoneName, hash, hashAlg).lookups[k].UserLookup?
  {
  }

  /**
   * A download is admitted exactly when the hash is valid, the zone is
   * found, any token given names a user, and either the zone allows public
   * download or a signed-in caller may download from it. No read threw.
   */
  lemma FindFileAdmission(dir: Directory, apiToken: Option<string>, zoneName: string, hash: string, hashAlg: string)
    ensures var gate := FindFileGate(dir, apiToken, zoneName, hash, hashAlg);
      gate.decision.Success? <==>
        && IsValidHash(hash, hashAlg)
        && Found(dir.zone(zoneName))
        && (if Truthy(apiToken) then
              && dir.userIdForToken(apiToken.value).Success?
              && dir.userIdForToken(apiToken.value).value != ""
              && (dir.zone(zoneName).value.value.publicDownload
                  || CanDownload(dir.zone(zoneName).value.value, dir.userIdForToken(apiToken.value).value))
            else dir.zone(zoneName).value.value.publicDownload)
    ensures var gate := FindFileGate(dir, apiToken, zoneName, hash, hashAlg);
      gate.decision.Success? ==>
        && dir.zone(zoneName) == Success(Some(gate.decision.value.zone))
        && (if Truthy(apiToken) then gate.decision.value.userId.Some?
              && dir.userIdForToken(apiToken.value) == Success(gate.decision.value.userId.value)
            else gate.decision.value.userId.None?)
        && (gate.decision.value.zone.publicDownload || CanDownload(gate.decision.value.zone, gate.decision.value.userId.value))
  {
  }

  /**
   * A token that names no user is refused by all three handlers: by the
   * upload handlers before the zone is read, and by the lookup handler even
   * for a public zone.
   */
  lemma UnknownTokenRefusedEverywhere(dir: Directory, sha1: Sha1, apiToken: Option<string>, zoneName: string,
                                      hash: string, hashAlg: string, workToken: string)
    requires IsValidHash(hash, hashAlg) && Found(dir.zone(zoneName))
    requires Truthy(apiToken) && dir.userIdForToken(apiToken.value) == Success("")
    ensures CheckWorkToken(sha1, workToken, hash).Pass? ==>
      InitiateGate(dir, sha1, apiToken, zoneName, hash, hashAlg, workToken)
        == Gate(Failure(Refused(NoUserForToken)), [TokenLookup(apiToken.value)])
    ensures FinalizeGate(dir, apiToken, zoneName, hash, hashAlg)
      == Gate(Failure(Refused(NoUserForToken)), [TokenLookup(apiToken.value)])
    ensures FindFileGate(dir, apiToken, zoneName, hash, hashAlg).decision == Failure(Refused(NoUserForToken))
  {
  }

  /**
   * A read that throws ends the request with that error (the 500 of the
   * handler's `catch`): every lookup but the last one succeeded, a failed
   * last lookup is what the request fails with, and apart from the invalid
   * work token every thrown error comes from the last lookup.
   */
  predicate ThrowsAtLastLookup<T>(dir: Directory, gate: Gate<T>) {
    && (forall k | 0 <= k < |gate.lookups| - 1 :: LookupError(dir, gate.lookups[k]).None?)
    && (gate.lookups != [] && LookupError(dir, gate.lookups[|gate.lookups| - 1]).Some? ==>
          gate.decision == Failure(Thrown(LookupError(dir, gate.lookups[|gate.lookups| - 1]).value)))
    && (gate.decision.Failure? && gate.decision.error.Thrown? && gate.decision.error != Thrown(InvalidWorkToken) ==>
          gate.lookups != [] && LookupError(dir, gate.lookups[|gate.lookups| - 1]) == Some(gate.decision.error.error))
  }

  /** The initiate gate stops at the first read that throws and reports its error. */
  lemma InitiateReadErrorsAreThrown(dir: Directory, sha1: Sha1, apiToken: Option<string>, zoneName: string,
                                    hash: string, hashAlg: string, workToken: string)
    ensures ThrowsAtLastLookup(dir, InitiateGate(dir, sha1, apiToken, zoneName, hash, hashAlg, workToken))
  {
  }

  /** The finalize gate stops at the first read that throws and reports its error. */
  lemma FinalizeReadErrorsAreThrown(dir: Directory, apiToken: Option<string>, zoneName: string,
                                    hash: string, hashAlg: string)
    ensures ThrowsAtLastLookup(dir, FinalizeGate(dir, apiToken, zoneName, hash, hashAlg))
  {
  }

  /** The find-file gate stops at the first read that throws and reports its error. */
  lemma FindFileReadErrorsAreThrown(dir: Directory, apiToken: Option<string>, zoneName: string,
                                    hash: string, hashAlg: string)
    ensures ThrowsAtLastLookup(dir, FindFileGate(dir, apiToken, zoneName, hash, hashAlg))
  {
  }

  /** `getUserIdFromApiToken` on the answer of `fetchUserForApiToken`: "" when no user holds the key. */
  function UserIdOf(r: Result<Option<User>, Error>): (id: Result<string, Error>)
    ensures id.Failure? <==> r.Failure?
    ensures id.Failure? ==> id.error == r.error
    ensures id == Success("") <==> r == Success(None) || (r.Success? && r.value.Some? && r.value.value.userId == "")
  {
    match r
    case Failure(e) => Failure(e)
    case Success(None) => Success("")
    case Success(Some(u)) => Success(u.userId)
  }

  /** The directory the two collections define: each read answers what its collection holds. */
  function StoreDirectory(zones: seq<Doc>, users: seq<Doc>): Directory {
    Directory(
      t => UserIdOf(if t == "" then Success(None) else Users.ReadUserByToken(users, t)),
      id => Users.ReadUser(users, id),
      n => Zones.ReadZone(zones, n))
  }

  /**
   * The reads the handlers make through the caches (`checkCache: true`,
   * credentials included) answer what the collections hold, setting a
   * user's API key aside, as long as the caches are faithful.
   */
  lemma CachedReadsMatchStore(zones: seq<Doc>, zoneCache: map<string, Store.Cached<Zone>>,
                              users: seq<Doc>, userCache: map<string, Store.Cached<User>>,
                              tokenCache: map<string, Store.Cached<User>>,
                              zoneName: string, userId: string, apiKey: string, now: int)
    requires Zones.ZoneCacheFaithful(zones, zoneCache)
    requires Users.UserCacheFaithful(users, userCache)
    requires Users.TokenCacheFaithful(users, tokenCache)
    ensures Zones.FetchZoneFixed(zones, zoneCache, zoneName, true, true, now).result
      == StoreDirectory(zones, users).zone(zoneName)
    ensures Users.AgreeExceptApiKey(Users.FetchUserOutcome(users, userCache, userId, true, now).result,
                                    StoreDirectory(zones, users).user(userId))
    ensures UserIdOf(Users.FetchUserForApiTokenOutcome(users, tokenCache, apiKey, true, now).result)
      == StoreDirectory(zones, users).userIdForToken(apiKey)
  {
  }

  /**
   * The gates read a user only for the profile, so user reads that differ
   * at most in API keys (a cached user whose key the getUser handler
   * masked) admit and refuse the same requests.
   */
  lemma GatesIgnoreApiKeys(dir: Directory, user': string -> Result<Option<User>, Error>, sha1: Sha1,
                           apiToken: Option<string>, zoneName: string, hash: string, hashAlg: string, workToken: string)
    requires forall id :: Users.AgreeExceptApiKey(user'(id), dir.user(id))
    ensures InitiateGate(dir.(user := user'), sha1, apiToken, zoneName, hash, hashAlg, workToken)
      == InitiateGate(dir, sha1, apiToken, zoneName, hash, hashAlg, workToken)
  {
  }

  /** An error of the core passed through the handler's `try`. */
  function ThrownBy<R>(r: Result<R, Error>): Result<R, HandlerError> {
    match r
    case Success(v) => Success(v)
    case Failure(e) => Failure(Thrown(e))
  }

  /** `initiateFileUploadHandler`: the gate, then `initiateUpload` on the gateway. */
  method InitiateFileUpload(g: Gateway, dir: Directory, sha1: Sha1, apiToken: Option<string>, zoneName: string,
                            size: int, hash: string, hashAlg: string, workToken: string,
                            store: ObjectStore, signer: Signer, now: int)
    returns (r: Result<InitiateUploadResult, HandlerError>)
    requires g.Valid()
    modifies g
    ensures g.Valid()
    ensures var gate := InitiateGate(dir, sha1, apiToken, zoneName, hash, hashAlg, workToken);
      gate.decision.Failure? ==>
        r == Failure(gate.decision.error) && g.uploadRecords == old(g.uploadRecords)
    ensures var gate := InitiateGate(dir, sha1, apiToken, zoneName, hash, hashAlg, workToken);
      gate.decision.Success? ==>
        var a := gate.decision.value;
        var step := InitiateUploadOutcome(a.zone, a.userId, size, hash, hashAlg, store, signer, now);
        r == ThrownBy(step.result) && g.uploadRecords == old(g.uploadRecords) + step.appended
    ensures g.downloadRecords == old(g.downloadRecords) && g.urlCache == old(g.urlCache)
  {
    var gate := InitiateGate(dir, sha1, apiToken, zoneName, hash, hashAlg, workToken);
    if gate.decision.Failure? {
      return Failure(gate.decision.error);
    }
    var a := gate.decision.value;
    var result := g.InitiateUpload(a.zone, a.userId, size, hash, hashAlg, store, signer, now);
    r := ThrownBy(result);
  }

  /** `finalizeFileUploadHandler`: the gate, then `finalizeUpload` on the gateway. */
  method FinalizeFileUpload(g: Gateway, dir: Directory, apiToken: Option<string>, zoneName: string,
                            size: int, hash: string, hashAlg: string, objectKey: string, now: int)
    returns (r: Result<bool, HandlerError>)
    requires g.Valid()
    modifies g
    ensures g.Valid()
    ensures var gate := FinalizeGate(dir, apiToken, zoneName, hash, hashAlg);
      gate.decision.Failure? ==>
        r == Failure(gate.decision.error) && g.uploadRecords == old(g.uploadRecords)
    ensures var gate := FinalizeGate(dir, apiToken, zoneName, hash, hashAlg);
      gate.decision.Success? && Truthy(gate.decision.value.zone.bucketUri) ==>
        var a := gate.decision.value;
        && r == Success(true)
        && g.uploadRecords == old(g.uploadRecords)
             + [UploadRecord(Finalize, now, a.zone.zoneName, a.zone.bucketUri.value, a.userId, size, hash, hashAlg, objectKey)]
    ensures var gate := FinalizeGate(dir, apiToken, zoneName, hash, hashAlg);
      gate.decision.Success? && !Truthy(gate.decision.value.zone.bucketUri) ==>
        && r == Failure(Thrown(BucketUriNotSet(gate.decision.value.zone.zoneName)))
        && g.uploadRecords == old(g.uploadRecords)
    ensures g.downloadRecords == old(g.downloadRecords) && g.urlCache == old(g.urlCache)
  {
    var gate := FinalizeGate(dir, apiToken, zoneName, hash, hashAlg);
    if gate.decision.Failure? {
      return Failure(gate.decision.error);
    }
    var a := gate.decision.value;
    var result := g.FinalizeUpload(a.zone, a.userId, size, hash, hashAlg, objectKey, now);
    r := ThrownBy(result);
  }

  /** `findFileHandler`: the gate, then `findFile` on the gateway. */
  method FindFileRequest(g: Gateway, dir: Directory, apiToken: Option<string>, zoneName: string,
                         hash: string, hashAlg: string, store: ObjectStore, signer: Signer, now: int)
    returns (r: Result<FindFileResult, HandlerError>)
    requires g.Valid()
    modifies g
    ensures g.Valid()
    ensures var gate := FindFileGate(dir, apiToken, zoneName, hash, hashAlg);
      gate.decision.Failure? ==>
        r == Failure(gate.decision.error)
        && g.downloadRecords == old(g.downloadRecords) && g.urlCache == old(g.urlCache)
    ensures var gate := FindFileGate(dir, apiToken, zoneName, hash, hashAlg);
      gate.decision.Success? ==>
        var a := gate.decision.value;
        var step := FindFileOutcome(a.zone, a.userId, hash, hashAlg, old(g.urlCache), old(g.downloadRecords), store, signer, now);
        && r == ThrownBy(step.result)
        && g.urlCache == step.cache
        && g.downloadRecords == old(g.downloadRecords) + step.appended
    ensures g.uploadRecords == old(g.uploadRecords)
  {
    var gate := FindFileGate(dir, apiToken, zoneName, hash, hashAlg);
    if gate.decision.Failure? {
      return Failure(gate.decision.error);
    }
    var a := gate.decision.value;
    var result := g.FindFile(a.zone, a.userId, hash, hashAlg, store, signer, now);
    r := ThrownBy(result);
  }
}
