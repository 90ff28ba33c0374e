/**
 * The request-field validators of the gateway (apiHelpers/requestHandlers.ts):
 * a hash check for the transfer requests and a length bound for every
 * free-text field a client may set.
 */
module Validators {
  import opened JsStrings
  import opened Types
  import opened SignedUrls
  import opened Core

  const MaxZoneNameLength: int := 100
  const MaxUserIdLength: int := 100
  const MaxNameLength: int := 200
  const MaxEmailLength: int := 200
  const MaxResearchDescriptionLength: int := 2000
  const MaxBucketUriLength: int := 200
  const MaxCredentialsLength: int := 2000
  const MaxDirectoryLength: int := 200

  /** `isValidHash`: the algorithm is "sha1" and the hash matches `^[0-9a-f]{40}$`. */
  function IsValidHash(hash: string, hashAlg: string): (r: bool)
    ensures r ==> |hash| == 40 && hashAlg == Sha1Alg
    ensures r <==> hashAlg == "sha1" && |hash| == 40 && forall i | 0 <= i < |hash| :: IsLowerHexChar(hash[i])
  {
    if hashAlg != Sha1Alg then false
    else if !IsLowerHex40(hash) then false
    else true
  }

  /** A `length > max` rejection: the text is accepted iff it has at most `max` characters. */
  function WithinLength(s: string, max: int): (r: bool)
    ensures r <==> |s| <= max
  {
    !(|s| > max)
  }

  predicate IsValidZoneName(zoneName: string) { WithinLength(zoneName, MaxZoneNameLength) }
  predicate IsValidUserId(userId: string) { WithinLength(userId, MaxUserIdLength) }
  predicate IsValidName(name: string) { WithinLength(name, MaxNameLength) }
  predicate IsValidEmail(email: string) { WithinLength(email, MaxEmailLength) }
  predicate IsValidResearchDescription(d: string) { WithinLength(d, MaxResearchDescriptionLength) }
  predicate IsValidBucketUri(bucketUri: string) { WithinLength(bucketUri, MaxBucketUriLength) }
  predicate IsValidCredentials(credentials: string) { WithinLength(credentials, MaxCredentialsLength) }
  predicate IsValidDirectory(directory: string) { WithinLength(directory, MaxDirectoryLength) }

  /** The bounds of every length validator, as numbers. */
  lemma LengthLimits(s: string)
    ensures IsValidZoneName(s) <==> |s| <= 100
    ensures IsValidUserId(s) <==> |s| <= 100
    ensures IsValidName(s) <==> |s| <= 200
    ensures IsValidEmail(s) <==> |s| <= 200
    ensures IsValidResearchDescription(s) <==> |s| <= 2000
    ensures IsValidBucketUri(s) <==> |s| <= 200
    ensures IsValidCredentials(s) <==> |s| <= 2000
    ensures IsValidDirectory(s) <==> |s| <= 200
  {
  }

  /**
   * The handler's hash check subsumes the upload coordinator's: a hash that a
   * handler lets through never fails `initiateUpload` on its algorithm or
   * its form, only on the zone's bucket or the size limit.
   */
  lemma ValidHashPassesCoreChecks(zone: Zone, size: int, hash: string, hashAlg: string)
    requires IsValidHash(hash, hashAlg)
    ensures IsValidSha1(hash)
    ensures UploadPrecheck(zone, size, hash, hashAlg).None? <==> Truthy(zone.bucketUri) && size <= MaxSizeForZone(zone)
  {
  }
}
