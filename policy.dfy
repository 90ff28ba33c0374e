/**
 * Authorization for a zone (apiHelpers/requestHandlers.ts): who may upload
 * to a zone, who may download from it, and who administers it. A member's
 * rights come from the FIRST grant in the zone's `users` list that names
 * them, as `Array.prototype.find` returns it; later grants for the same
 * user are never consulted.
 */
module Policy {
  import opened Wrappers
  import opened Types

  /** The zone anyone may upload to, signed in or not. */
  const ScratchZone: string := "scratch"

  /** The one hard-coded site administrator (`isAdminUser`). */
  const SiteAdmin: string := "github|magland"

  /** Index of the first grant naming `userId`. */
  function GrantIndex(users: seq<ZoneUser>, userId: string): (r: Option<nat>)
    ensures r.Some? ==> r.value < |users| && users[r.value].userId == userId
    ensures r.Some? ==> forall j | 0 <= j < r.value :: users[j].userId != userId
    ensures r.None? <==> forall j | 0 <= j < |users| :: users[j].userId != userId
    decreases |users|
  {
    if |users| == 0 then None
    else if users[0].userId == userId then Some(0)
    else
      match GrantIndex(users[1..], userId)
      case None => None
      case Some(i) => Some(i + 1)
  }

  /** `zone.users.find((u) => u.userId === userId)` */
  function FindGrant(users: seq<ZoneUser>, userId: string): (r: Option<ZoneUser>)
    ensures r.Some? <==> exists i :: 0 <= i < |users| && users[i].userId == userId
    ensures r.Some? ==> r.value.userId == userId && r.value in users
  {
    match GrantIndex(users, userId)
    case None => None
    case Some(i) => Some(users[i])
  }

  /** `i` is the position of the first grant naming `userId`. */
  predicate FirstGrantAt(users: seq<ZoneUser>, userId: string, i: int) {
    && 0 <= i < |users| && users[i].userId == userId
    && forall j | 0 <= j < i :: users[j].userId != userId
  }

  /** `userIsAllowedToUploadFilesForZone`, branch by branch. */
  predicate CanUpload(zone: Zone, userId: string) {
    if zone.zoneName == ScratchZone then true
    else if userId == "" then false
    else if zone.publicUpload == Some(true) then true
    else if zone.userId == userId then true
    else
      match FindGrant(zone.users, userId)
      case None => false
      case Some(g) => g.uploadFiles
  }

  /** `userIsAllowedToDownloadFilesForZone` */
  predicate CanDownload(zone: Zone, userId: string) {
    if zone.userId == userId then true
    else if zone.publicDownload then true
    else
      match FindGrant(zone.users, userId)
      case None => false
      case Some(g) => g.downloadFiles
  }

  /** `userIsAdminForZone` */
  predicate IsZoneAdmin(zone: Zone, userId: string) {
    if zone.userId == userId then true
    else
      match FindGrant(zone.users, userId)
      case None => false
      case Some(g) => g.admin
  }

  /** `isAdminUser`: membership in the one-element list of site administrators. */
  function IsSiteAdmin(userId: string): (r: bool)
    ensures r <==> userId in [SiteAdmin]
  {
    userId == SiteAdmin
  }

  /** The first grant found by `FindGrant` is the one at the first matching position. */
  lemma FindGrantIsFirst(users: seq<ZoneUser>, userId: string)
    ensures FindGrant(users, userId).Some? <==> exists i :: FirstGrantAt(users, userId, i)
    ensures forall i | FirstGrantAt(users, userId, i) :: FindGrant(users, userId) == Some(users[i])
  {
    forall i | FirstGrantAt(users, userId, i)
      ensures FindGrant(users, userId) == Some(users[i])
    {
      var k := GrantIndex(users, userId);
      assert k.Some? && k.value == i;
    }
    if FindGrant(users, userId).Some? {
      assert FirstGrantAt(users, userId, GrantIndex(users, userId).value);
    }
  }

  /**
   * The upload rule as a whole: the scratch zone admits everyone; elsewhere a
   * signed-in user may upload when the zone is public for uploads, when they
   * own it, or when their first grant allows uploads.
   */
  lemma UploadRule(zone: Zone, userId: string)
    ensures CanUpload(zone, userId) <==>
      zone.zoneName == ScratchZone ||
      (userId != "" &&
        (zone.publicUpload == Some(true) || zone.userId == userId ||
         exists i :: FirstGrantAt(zone.users, userId, i) && zone.users[i].uploadFiles))
  {
    FindGrantIsFirst(zone.users, userId);
  }

  /** The download rule: owner, public download, or a first grant allowing downloads. */
  lemma DownloadRule(zone: Zone, userId: string)
    ensures CanDownload(zone, userId) <==>
      zone.userId == userId || zone.publicDownload ||
      exists i :: FirstGrantAt(zone.users, userId, i) && zone.users[i].downloadFiles
  {
    FindGrantIsFirst(zone.users, userId);
  }

  /** The admin rule: owner, or a first grant marked admin. */
  lemma AdminRule(zone: Zone, userId: string)
    ensures IsZoneAdmin(zone, userId) <==>
      zone.userId == userId || exists i :: FirstGrantAt(zone.users, userId, i) && zone.users[i].admin
  {
    FindGrantIsFirst(zone.users, userId);
  }

  /**
   * Without a grant a user holds only what the zone gives everyone (and what
   * ownership gives): a missing grant never allows anything.
   */
  lemma NoGrantMeansPublicOnly(zone: Zone, userId: string)
    requires zone.userId != userId
    requires forall i | 0 <= i < |zone.users| :: zone.users[i].userId != userId
    ensures CanUpload(zone, userId) <==> zone.zoneName == ScratchZone || (userId != "" && zone.publicUpload == Some(true))
    ensures CanDownload(zone, userId) <==> zone.publicDownload
    ensures !IsZoneAdmin(zone, userId)
  {
  }

  /** The owner has every right, except that outside the scratch zone an empty user id may not upload. */
  lemma OwnerHasEveryRight(zone: Zone, userId: string)
    requires zone.userId == userId
    ensures CanDownload(zone, userId) && IsZoneAdmin(zone, userId)
    ensures CanUpload(zone, userId) <==> zone.zoneName == ScratchZone || userId != ""
  {
  }

  /**
   * Appending a grant changes no one's rights except, when they had no grant
   * yet, those of the user it names; in particular a second grant for a user
   * who already has one is ignored.
   */
  lemma {:induction false} AppendedGrantIsShadowed(users: seq<ZoneUser>, g: ZoneUser, userId: string)
    requires g.userId != userId || FindGrant(users, userId).Some?
    ensures FindGrant(users + [g], userId) == FindGrant(users, userId)
  {
    var us := users + [g];
    assert forall j | 0 <= j < |users| :: us[j] == users[j];
    var k := GrantIndex(users, userId);
    if k.Some? {
      assert FirstGrantAt(us, userId, k.value);
      FindGrantIsFirst(us, userId);
    } else {
      assert us[|users|] == g;
      assert forall j | 0 <= j < |us| :: us[j].userId != userId;
    }
  }

  /** Consequently appending such a grant leaves every decision for `userId` as it was. */
  lemma AppendedGrantKeepsDecisions(zone: Zone, g: ZoneUser, userId: string)
    requires g.userId != userId || FindGrant(zone.users, userId).Some?
    ensures CanUpload(zone.(users := zone.users + [g]), userId) == CanUpload(zone, userId)
    ensures CanDownload(zone.(users := zone.users + [g]), userId) == CanDownload(zone, userId)
    ensures IsZoneAdmin(zone.(users := zone.users + [g]), userId) == IsZoneAdmin(zone, userId)
  {
    AppendedGrantIsShadowed(zone.users, g, userId);
  }
}
