/**
 * The zone directory of requestHandlers.ts: the zone collection, the
 * process-local `zoneMemoryCache` (name -> zone and the time it was read)
 * and the operations over them, `fetchZone`, `fetchZonesForUser`,
 * `fetchAllZones`, `insertZone`, `updateZone` and `deleteZone`, plus the
 * zone listing the getZones handler returns.
 *
 * `fetchZone` as written stores the zone object in the cache and then
 * masks the credentials of that same object (lines 872 and 875), so a
 * later read that asks for credentials may be served the mask from the
 * cache. `FetchZoneAsWritten` models that; `FetchZoneFixed`, which keeps
 * the cached zone intact and masks a copy, is what `ZoneDirectory` uses.
 */
module Zones {
  import opened Wrappers
  import opened JsStrings
  import opened Types
  import opened Store

  /** How long a cached zone is reused, in milliseconds. */
  const ZoneCacheTtlMs: int := 1000 * 60

  /** Reading a zone straight from the collection, as the uncached path of `fetchZone` does. */
  function ReadZone(zones: seq<Doc>, name: string): (r: Result<Option<Zone>, Error>)
    ensures r.Failure? ==> r.error == InvalidZoneInDatabase
    ensures r == Success(None) <==> forall j | 0 <= j < |zones| :: !Matches(zones[j], ZoneNameField, VString(name))
    ensures r.Success? && r.value.Some? ==> r.value.value.zoneName == name
    ensures FindIndex(zones, ZoneNameField, VString(name)).Some? ==>
      var doc := zones[FindIndex(zones, ZoneNameField, VString(name)).value];
      (r.Failure? <==> DecodeZone(doc).None?) && (r.Success? ==> r.value == DecodeZone(doc))
  {
    match FindOne(zones, ZoneNameField, VString(name))
    case None => Success(None)
    case Some(doc) =>
      match DecodeZone(doc)
      case None => Failure(InvalidZoneInDatabase)
      case Some(z) => Success(Some(z))
  }

  /** What a reader is shown: the zone itself, or the zone with its credentials masked. */
  function Shown(z: Zone, includeCredentials: bool): (r: Zone)
    ensures includeCredentials ==> r == z
    ensures !includeCredentials ==> r.credentials.None? || r.credentials == Some(Mask)
    ensures r.(credentials := z.credentials) == z
  {
    if includeCredentials then z else RedactCredentials(z)
  }

  /** `Shown` applied to a found zone; not found and failures pass through. */
  function ShownResult(r: Result<Option<Zone>, Error>, includeCredentials: bool): Result<Option<Zone>, Error> {
    match r
    case Success(Some(z)) => Success(Some(Shown(z, includeCredentials)))
    case _ => r
  }

  /** The answer of a `fetchZone` call and the cache it leaves behind. */
  datatype ZoneFetch = ZoneFetch(result: Result<Option<Zone>, Error>, cache: map<string, Cached<Zone>>)

  /**
   * `fetchZone` as written. The object placed in (or taken from) the cache
   * is the one whose credentials are then masked, so a call without
   * credentials leaves the masked zone in the cache.
   */
  function FetchZoneAsWritten(zones: seq<Doc>, cache: map<string, Cached<Zone>>, name: string,
                              includeCredentials: bool, checkCache: bool, now: int): (r: ZoneFetch)
    ensures checkCache && IsFresh(cache, name, now, ZoneCacheTtlMs) ==>
      var shown := Shown(cache[name].value, includeCredentials);
      r.result == Success(Some(shown)) && r.cache == cache[name := Cached(shown, cache[name].timestamp)]
    ensures !(checkCache && IsFresh(cache, name, now, ZoneCacheTtlMs)) ==>
      r.result == ShownResult(ReadZone(zones, name), includeCredentials)
    ensures (!(checkCache && IsFresh(cache, name, now, ZoneCacheTtlMs)) && ReadZone(zones, name).Success?
             && ReadZone(zones, name).value.Some?) ==>
      r.cache == cache[name := Cached(Shown(ReadZone(zones, name).value.value, includeCredentials), now)]
    ensures (!(checkCache && IsFresh(cache, name, now, ZoneCacheTtlMs))
             && (ReadZone(zones, name).Failure? || ReadZone(zones, name) == Success(None))) ==> r.cache == cache
  {
    if checkCache && IsFresh(cache, name, now, ZoneCacheTtlMs) then
      var z := cache[name].value;
      ZoneFetch(Success(Some(Shown(z, includeCredentials))),
                cache[name := Cached(Shown(z, includeCredentials), cache[name].timestamp)])
    else
      match ReadZone(zones, name)
      case Success(Some(z)) =>
        ZoneFetch(Success(Some(Shown(z, includeCredentials))), cache[name := Cached(Shown(z, includeCredentials), now)])
      case r => ZoneFetch(r, cache)
  }

  /**
   * `fetchZone` with the cached zone kept intact: a fresh entry is reused
   * only when `checkCache` asks for it; otherwise the collection is read and
   * a found zone overwrites the entry, stamped `now`. Not found and an
   * invalid document leave the cache alone.
   */
  function FetchZoneFixed(zones: seq<Doc>, cache: map<string, Cached<Zone>>, name: string,
                          includeCredentials: bool, checkCache: bool, now: int): (r: ZoneFetch)
    ensures checkCache && IsFresh(cache, name, now, ZoneCacheTtlMs) ==>
      r.cache == cache && r.result == Success(Some(Shown(cache[name].value, includeCredentials)))
    ensures !(checkCache && IsFresh(cache, name, now, ZoneCacheTtlMs)) ==>
      r.result == ShownResult(ReadZone(zones, name), includeCredentials)
    ensures (!(checkCache && IsFresh(cache, name, now, ZoneCacheTtlMs)) && ReadZone(zones, name).Success?
             && ReadZone(zones, name).value.Some?) ==>
      r.cache == cache[name := Cached(ReadZone(zones, name).value.value, now)]
    ensures ReadZone(zones, name).Failure? || ReadZone(zones, name) == Success(None) ==> r.cache == cache
  {
    if checkCache && IsFresh(cache, name, now, ZoneCacheTtlMs) then
      ZoneFetch(Success(Some(Shown(cache[name].value, includeCredentials))), cache)
    else
      match ReadZone(zones, name)
      case Success(Some(z)) => ZoneFetch(Success(Some(Shown(z, includeCredentials))), cache[name := Cached(z, now)])
      case r => ZoneFetch(r, cache)
  }

  /** Every cached zone is the zone the collection holds under that name. */
  ghost predicate ZoneCacheFaithful(zones: seq<Doc>, cache: map<string, Cached<Zone>>) {
    forall name | name in cache :: ReadZone(zones, name) == Success(Some(cache[name].value))
  }

  /**
   * With a faithful cache, the fixed `fetchZone` answers exactly what the
   * collection holds (masked unless credentials were asked for), whatever
   * the TTL decides, and leaves the cache faithful.
   */
  lemma FetchZoneFaithful(zones: seq<Doc>, cache: map<string, Cached<Zone>>, name: string,
                          includeCredentials: bool, checkCache: bool, now: int)
    requires ZoneCacheFaithful(zones, cache)
    ensures FetchZoneFixed(zones, cache, name, includeCredentials, checkCache, now).result
      == ShownResult(ReadZone(zones, name), includeCredentials)
    ensures ZoneCacheFaithful(zones, FetchZoneFixed(zones, cache, name, includeCredentials, checkCache, now).cache)
  {
    if checkCache && IsFresh(cache, name, now, ZoneCacheTtlMs) {
      assert ReadZone(zones, name) == Success(Some(cache[name].value));
    }
  }

  /**
   * The aliasing in `fetchZone` as written: a call without credentials and
   * without the cache (getZone, addZone, deleteZone) followed within 60 s
   * by a cached call with credentials (findFile, initiateUpload,
   * finalizeUpload) is served the mask instead of the stored credentials.
   */
  lemma MaskedZoneServedAsWritten(zones: seq<Doc>, cache: map<string, Cached<Zone>>, name: string,
                                  z: Zone, now: int, later: int)
    requires ReadZone(zones, name) == Success(Some(z))
    requires Truthy(z.credentials) && z.credentials.value != Mask
    requires now <= later < now + ZoneCacheTtlMs
    ensures var first := FetchZoneAsWritten(zones, cache, name, false, false, now);
      var second := FetchZoneAsWritten(zones, first.cache, name, true, true, later);
      second.result == Success(Some(z.(credentials := Some(Mask)))) && second.result != ReadZone(zones, name)
  {
    var first := FetchZoneAsWritten(zones, cache, name, false, false, now);
    assert first.cache[name] == Cached(RedactCredentials(z), now);
  }

  /** The same two calls on the fixed `fetchZone` return the stored credentials. */
  lemma CredentialsSurviveMaskedRead(zones: seq<Doc>, cache: map<string, Cached<Zone>>, name: string,
                                     z: Zone, now: int, later: int)
    requires ReadZone(zones, name) == Success(Some(z))
    requires now <= later < now + ZoneCacheTtlMs
    ensures var first := FetchZoneFixed(zones, cache, name, false, false, now);
      var second := FetchZoneFixed(zones, first.cache, name, true, true, later);
      first.result == Success(Some(RedactCredentials(z))) && second.result == Success(Some(z))
  {
  }

  /**
   * The loop of `fetchZonesForUser` and `fetchAllZones`: every document must
   * be a zone, and each is shown masked unless credentials were asked for.
   */
  function DecodedZones(docs: seq<Doc>, includeCredentials: bool): (r: Result<seq<Zone>, Error>)
    ensures r.Success? <==> forall i | 0 <= i < |docs| :: DecodeZone(docs[i]).Some?
    ensures r.Failure? ==> r.error == InvalidZoneInDatabase
    ensures r.Success? ==> |r.value| == |docs|
    ensures r.Success? ==>
      forall i | 0 <= i < |docs| :: r.value[i] == Shown(DecodeZone(docs[i]).value, includeCredentials)
  {
    if |docs| == 0 then Success([])
    else
      match DecodeZone(docs[0])
      case None => Failure(InvalidZoneInDatabase)
      case Some(z) =>
        var rest :- DecodedZones(docs[1..], includeCredentials);
        assert forall i | 1 <= i < |docs| :: docs[i] == docs[1..][i - 1];
        Success([Shown(z, includeCredentials)] + rest)
  }

  /** Decoding documents that all carry one owner yields zones of that owner. */
  lemma DecodedZonesOwner(docs: seq<Doc>, includeCredentials: bool, owner: string)
    requires forall d | d in docs :: Matches(d, UserIdField, VString(owner))
    ensures DecodedZones(docs, includeCredentials).Success? ==>
      forall z | z in DecodedZones(docs, includeCredentials).value :: z.userId == owner
  {
    if DecodedZones(docs, includeCredentials).Success? {
      var shown := DecodedZones(docs, includeCredentials).value;
      forall z | z in shown ensures z.userId == owner {
        var i :| 0 <= i < |shown| && shown[i] == z;
        assert docs[i] in docs;
        assert Shown(DecodeZone(docs[i]).value, includeCredentials).userId == DecodeZone(docs[i]).value.userId;
      }
    }
  }

  /** The `for (const zone of zones)` loop itself. */
  method DecodeZones(docs: seq<Doc>, includeCredentials: bool) returns (r: Result<seq<Zone>, Error>)
    ensures r == DecodedZones(docs, includeCredentials)
  {
    var shown: seq<Zone> := [];
    var i := 0;
    while i < |docs|
      invariant 0 <= i <= |docs| && |shown| == i
      invariant forall j | 0 <= j < i :: DecodeZone(docs[j]).Some?
      invariant forall j | 0 <= j < i :: shown[j] == Shown(DecodeZone(docs[j]).value, includeCredentials)
    {
      var z := DecodeZone(docs[i]);
      if z.None? {
        return Failure(InvalidZoneInDatabase);
      }
      shown := shown + [Shown(z.value, includeCredentials)];
      i := i + 1;
    }
    r := Success(shown);
    assert r.value == DecodedZones(docs, includeCredentials).value;
  }

  /**
   * The zones the getZones handler returns as written: the user's zones
   * masked when a user id is given, and otherwise every zone through
   * `fetchAllZones`, which does not mask.
   */
  function GetZonesAsWritten(zones: seq<Doc>, userId: Option<string>): (r: Result<seq<Zone>, Error>)
    ensures Truthy(userId) && r.Success? ==> forall z | z in r.value :: z.userId == userId.value
    ensures !Truthy(userId) ==> r == DecodedZones(zones, true)
  {
    if Truthy(userId) then
      DecodedZonesOwner(FindAll(zones, UserIdField, VString(userId.value)), false, userId.value);
      DecodedZones(FindAll(zones, UserIdField, VString(userId.value)), false)
    else DecodedZones(zones, true)
  }

  /** The getZones listing with every zone masked, as the credentials rule requires. */
  function GetZones(zones: seq<Doc>, userId: Option<string>): (r: Result<seq<Zone>, Error>)
    ensures Truthy(userId) && r.Success? ==> forall z | z in r.value :: z.userId == userId.value
    ensures r.Success? ==> |r.value| == if Truthy(userId) then |FindAll(zones, UserIdField, VString(userId.value))| else |zones|
  {
    if Truthy(userId) then
      DecodedZonesOwner(FindAll(zones, UserIdField, VString(userId.value)), false, userId.value);
      DecodedZones(FindAll(zones, UserIdField, VString(userId.value)), false)
    else DecodedZones(zones, false)
  }

  /** As written, a request without a user id receives each stored credential in the clear. */
  lemma GetZonesAsWrittenLeaks(zones: seq<Doc>, i: nat)
    requires i < |zones| && forall j | 0 <= j < |zones| :: DecodeZone(zones[j]).Some?
    requires Truthy(DecodeZone(zones[i]).value.credentials)
    ensures GetZonesAsWritten(zones, None).Success?
    ensures GetZonesAsWritten(zones, None).value[i].credentials == DecodeZone(zones[i]).value.credentials
  {
  }

  /** The corrected listing shows no credential other than the mask, whoever asks. */
  lemma GetZonesMasksCredentials(zones: seq<Doc>, userId: Option<string>)
    ensures GetZones(zones, userId).Success? ==>
      forall z | z in GetZones(zones, userId).value :: z.credentials.None? || z.credentials == Some(Mask)
    ensures GetZones(zones, userId).Success? <==> GetZonesAsWritten(zones, userId).Success?
  {
  }

  /** A zone the collection does not hold yet reads back as itself once inserted. */
  lemma InsertedZoneReadsBack(zones: seq<Doc>, z: Zone)
    requires ReadZone(zones, z.zoneName) == Success(None)
    ensures ReadZone(InsertIfAbsent(zones, ZoneNameField, EncodeZone(z)), z.zoneName) == Success(Some(z))
  {
    var d := EncodeZone(z);
    assert ZoneFieldValue(z, ZoneNameField).Some?;
    var after := zones + [d];
    assert forall m | 0 <= m < |zones| :: after[m] == zones[m];
    FirstMatchIsFound(after, ZoneNameField, VString(z.zoneName), |zones|);
    DecodeEncodeZone(z);
  }

  /** `insertZone` keeps every cached zone faithful: a present name is left alone, a new one is appended. */
  lemma InsertZoneKeepsFaithful(zones: seq<Doc>, cache: map<string, Cached<Zone>>, z: Zone)
    requires ZoneCacheFaithful(zones, cache)
    ensures ZoneNameField in EncodeZone(z)
    ensures ZoneCacheFaithful(InsertIfAbsent(zones, ZoneNameField, EncodeZone(z)), cache)
  {
    var d := EncodeZone(z);
    assert ZoneFieldValue(z, ZoneNameField).Some?;
    forall name | name in cache
      ensures ReadZone(InsertIfAbsent(zones, ZoneNameField, d), name) == Success(Some(cache[name].value))
    {
      assert ReadZone(zones, name) == Success(Some(cache[name].value));
      if FindIndex(zones, ZoneNameField, d[ZoneNameField]).None? {
        FindOneAfterAppend(zones, d, ZoneNameField, VString(name));
      }
    }
  }

  /** `deleteZone` drops the zone's entry, which keeps the other cached zones faithful. */
  lemma DeleteZoneKeepsFaithful(zones: seq<Doc>, cache: map<string, Cached<Zone>>, name: string)
    requires ZoneCacheFaithful(zones, cache)
    ensures ZoneCacheFaithful(DeleteOne(zones, ZoneNameField, VString(name)), cache - {name})
  {
    match FindIndex(zones, ZoneNameField, VString(name))
    case None =>
    case Some(i) =>
      forall other | other in cache - {name}
        ensures ReadZone(DeleteOne(zones, ZoneNameField, VString(name)), other) == Success(Some(cache[other].value))
      {
        assert ReadZone(zones, other) == Success(Some(cache[other].value));
        assert VString(other) != VString(name);
        FindOneAfterRemove(zones, i, ZoneNameField, VString(other));
      }
  }

  /**
   * `updateZone` drops the zone's entry; when the update leaves the name
   * alone, the other cached zones stay faithful.
   */
  lemma UpdateZoneKeepsFaithful(zones: seq<Doc>, cache: map<string, Cached<Zone>>, name: string,
                                toSet: map<Field, Value>, toUnset: set<Field>)
    requires ZoneCacheFaithful(zones, cache)
    requires ZoneNameField !in toSet && ZoneNameField !in toUnset
    ensures ZoneCacheFaithful(UpdateOne(zones, ZoneNameField, VString(name), toSet, toUnset), cache - {name})
  {
    match FindIndex(zones, ZoneNameField, VString(name))
    case None =>
    case Some(i) =>
      var updated := ApplyUpdate(zones[i], toSet, toUnset);
      assert updated[ZoneNameField] == VString(name);
      forall other | other in cache - {name}
        ensures ReadZone(UpdateOne(zones, ZoneNameField, VString(name), toSet, toUnset), other)
          == Success(Some(cache[other].value))
      {
        assert ReadZone(zones, other) == Success(Some(cache[other].value));
        assert VString(other) != VString(name);
        FindOneAfterReplace(zones, i, updated, ZoneNameField, VString(other));
      }
  }

  /** The zone collection and the zone cache of one server process. */
  class ZoneDirectory {
    var zones: seq<Doc>
    var zoneCache: map<string, Cached<Zone>>

    ghost predicate Valid()
      reads this
    {
      ZoneCacheFaithful(zones, zoneCache)
    }

    constructor(zones: seq<Doc>)
      ensures this.zones == zones && zoneCache == map[]
      ensures Valid()
    {
      this.zones := zones;
      zoneCache := map[];
    }

    /** `fetchZone(zoneName, { includeCredentials, checkCache })`, masking a copy. */
    method FetchZone(name: string, includeCredentials: bool, checkCache: bool, now: int)
      returns (r: Result<Option<Zone>, Error>)
      modifies this`zoneCache
      ensures r == FetchZoneFixed(zones, old(zoneCache), name, includeCredentials, checkCache, now).result
      ensures zoneCache == FetchZoneFixed(zones, old(zoneCache), name, includeCredentials, checkCache, now).cache
      ensures old(Valid()) ==> Valid() && r == ShownResult(ReadZone(zones, name), includeCredentials)
    {
      ghost var step := FetchZoneFixed(zones, zoneCache, name, includeCredentials, checkCache, now);
      if Valid() {
        FetchZoneFaithful(zones, zoneCache, name, includeCredentials, checkCache, now);
      }
      var zone: Option<Zone> := None;
      if checkCache && name in zoneCache && now - zoneCache[name].timestamp < ZoneCacheTtlMs {
        zone := Some(zoneCache[name].value);
      }
      if zone.None? {
        var doc := FindOne(zones, ZoneNameField, VString(name));
        if doc.None? {
          assert ReadZone(zones, name) == Success(None);
          return Success(None);
        }
        var decoded := DecodeZone(doc.value);
        if decoded.None? {
          assert ReadZone(zones, name) == Failure(InvalidZoneInDatabase);
          return Failure(InvalidZoneInDatabase);
        }
        assert ReadZone(zones, name) == Success(decoded);
        zone := decoded;
        zoneCache := zoneCache[name := Cached(decoded.value, now)];
      }
      r := Success(Some(Shown(zone.value, includeCredentials)));
    }

    /** `fetchZonesForUser(userId, { includeCredentials })`. */
    method FetchZonesForUser(userId: string, includeCredentials: bool) returns (r: Result<seq<Zone>, Error>)
      ensures r == DecodedZones(FindAll(zones, UserIdField, VString(userId)), includeCredentials)
    {
      r := DecodeZones(FindAll(zones, UserIdField, VString(userId)), includeCredentials);
    }

    /** `fetchAllZones()`, which does not mask. */
    method FetchAllZones() returns (r: Result<seq<Zone>, Error>)
      ensures r == DecodedZones(zones, true)
    {
      r := DecodeZones(zones, true);
    }

    /** The getZones listing, masked in both branches. */
    method ListZones(userId: Option<string>) returns (r: Result<seq<Zone>, Error>)
      ensures r == GetZones(zones, userId)
    {
      if Truthy(userId) {
        r := FetchZonesForUser(userId.value, false);
      } else {
        r := DecodeZones(zones, false);
      }
    }

    /** `insertZone(zone)`: an upsert that inserts only when the name is new; the cache is not touched. */
    method InsertZone(z: Zone)
      modifies this`zones
      ensures ZoneNameField in EncodeZone(z)
      ensures zones == InsertIfAbsent(old(zones), ZoneNameField, EncodeZone(z))
      ensures old(Valid()) ==> Valid()
    {
      if Valid() {
        InsertZoneKeepsFaithful(zones, zoneCache, z);
      }
      assert ZoneFieldValue(z, ZoneNameField).Some?;
      zones := InsertIfAbsent(zones, ZoneNameField, EncodeZone(z));
    }

    /** `deleteZone(zoneName)`: removes the first document with that name and its cache entry. */
    method DeleteZone(name: string)
      modifies this`zones, this`zoneCache
      ensures zones == DeleteOne(old(zones), ZoneNameField, VString(name))
      ensures zoneCache == old(zoneCache) - {name}
      ensures old(Valid()) ==> Valid()
    {
      if Valid() {
        DeleteZoneKeepsFaithful(zones, zoneCache, name);
      }
      zones := DeleteOne(zones, ZoneNameField, VString(name));
      if name in zoneCache {
        zoneCache := zoneCache - {name};
      } else {
        RemoveAbsentKey(zoneCache, name);
      }
    }

    /** `updateZone(zoneName, update)`: a split `$set`/`$unset` update, then the entry is dropped. */
    method UpdateZone(name: string, update: map<Field, Option<Value>>)
      modifies this`zones, this`zoneCache
      ensures zones == UpdateOne(old(zones), ZoneNameField, VString(name), SetPart(update), UnsetPart(update))
      ensures zoneCache == old(zoneCache) - {name}
      ensures old(Valid()) && ZoneNameField !in update ==> Valid()
    {
      var toSet, toUnset := SplitUpdate(update);
      if Valid() && ZoneNameField !in update {
        UpdateZoneKeepsFaithful(zones, zoneCache, name, toSet, toUnset);
      }
      zones := UpdateOne(zones, ZoneNameField, VString(name), toSet, toUnset);
      if name in zoneCache {
        zoneCache := zoneCache - {name};
      } else {
        RemoveAbsentKey(zoneCache, name);
      }
    }
  }
}
