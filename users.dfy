/**
 * The user directory of requestHandlers.ts: the user collection, the
 * user-by-id cache `userMemoryCache` (60 s) and the user-by-API-key cache
 * `userMemoryCacheForApiToken` (1 s), with `fetchUser`,
 * `fetchUserForApiToken`, `insertUser` and `updateUser`, and the effect of
 * the getUser handler, which masks the API key of the very object the
 * user-by-id cache holds.
 */
module Users {
  import opened Wrappers
  import opened Types
  import opened Store

  /** How long a user read by id is reused, in milliseconds. */
  const UserCacheTtlMs: int := 1000 * 60

  /** How long a user read by API key is reused, in milliseconds. */
  const TokenCacheTtlMs: int := 1000

  /** Reading a user by id straight from the collection. */
  function ReadUser(users: seq<Doc>, userId: string): (r: Result<Option<User>, Error>)
    ensures r.Failure? ==> r.error == InvalidUserInDatabase
    ensures r == Success(None) <==> forall j | 0 <= j < |users| :: !Matches(users[j], UserIdField, VString(userId))
    ensures r.Success? && r.value.Some? ==> r.value.value.userId == userId
    ensures FindIndex(users, UserIdField, VString(userId)).Some? ==>
      var doc := users[FindIndex(users, UserIdField, VString(userId)).value];
      (r.Failure? <==> DecodeUser(doc).None?) && (r.Success? ==> r.value == DecodeUser(doc))
  {
    match FindOne(users, UserIdField, VString(userId))
    case None => Success(None)
    case Some(doc) =>
      match DecodeUser(doc)
      case None => Failure(InvalidUserInDatabase)
      case Some(u) => Success(Some(u))
  }

  /** Reading a user by API key straight from the collection (`findOne({ apiKey })`). */
  function ReadUserByToken(users: seq<Doc>, apiKey: string): (r: Result<Option<User>, Error>)
    ensures r.Failure? ==> r.error == InvalidUserInDatabase
    ensures r == Success(None) <==> forall j | 0 <= j < |users| :: !Matches(users[j], ApiKeyField, VString(apiKey))
    ensures r.Success? && r.value.Some? ==> r.value.value.apiKey == Some(apiKey)
    ensures FindIndex(users, ApiKeyField, VString(apiKey)).Some? ==>
      var doc := users[FindIndex(users, ApiKeyField, VString(apiKey)).value];
      (r.Failure? <==> DecodeUser(doc).None?) && (r.Success? ==> r.value == DecodeUser(doc))
  {
    match FindOne(users, ApiKeyField, VString(apiKey))
    case None => Success(None)
    case Some(doc) =>
      match DecodeUser(doc)
      case None => Failure(InvalidUserInDatabase)
      case Some(u) => Success(Some(u))
  }

  /** The answer of a user fetch and the cache it leaves behind. */
  datatype UserFetch = UserFetch(result: Result<Option<User>, Error>, cache: map<string, Cached<User>>)

  /**
   * `fetchUser(userId, { checkCache })`: a cached user younger than 60 s is
   * reused only when `checkCache` asks for it; otherwise the collection is
   * read and a found user overwrites the entry, stamped `now`.
   */
  function FetchUserOutcome(users: seq<Doc>, cache: map<string, Cached<User>>, userId: string,
                            checkCache: bool, now: int): (r: UserFetch)
    ensures checkCache && IsFresh(cache, userId, now, UserCacheTtlMs) ==>
      r.cache == cache && r.result == Success(Some(cache[userId].value))
    ensures !(checkCache && IsFresh(cache, userId, now, UserCacheTtlMs)) ==> r.result == ReadUser(users, userId)
    ensures (!(checkCache && IsFresh(cache, userId, now, UserCacheTtlMs)) && ReadUser(users, userId).Success?
             && ReadUser(users, userId).value.Some?) ==>
      r.cache == cache[userId := Cached(ReadUser(users, userId).value.value, now)]
    ensures ReadUser(users, userId).Failure? || ReadUser(users, userId) == Success(None) ==> r.cache == cache
  {
    if checkCache && IsFresh(cache, userId, now, UserCacheTtlMs) then
      UserFetch(Success(Some(cache[userId].value)), cache)
    else
      match ReadUser(users, userId)
      case Success(Some(u)) => UserFetch(Success(Some(u)), cache[userId := Cached(u, now)])
      case r => UserFetch(r, cache)
  }

  /**
   * `fetchUserForApiToken(apiKey, { checkCache })`: an empty key finds no
   * one and touches nothing; otherwise as `fetchUser`, keyed by the API key
   * and with a 1 s lifetime.
   */
  function FetchUserForApiTokenOutcome(users: seq<Doc>, cache: map<string, Cached<User>>, apiKey: string,
                                       checkCache: bool, now: int): (r: UserFetch)
    ensures apiKey == "" ==> r == UserFetch(Success(None), cache)
    ensures apiKey != "" && checkCache && IsFresh(cache, apiKey, now, TokenCacheTtlMs) ==>
      r.cache == cache && r.result == Success(Some(cache[apiKey].value))
    ensures (apiKey != "" && !(checkCache && IsFresh(cache, apiKey, now, TokenCacheTtlMs))) ==>
      r.result == ReadUserByToken(users, apiKey)
    ensures (apiKey != "" && !(checkCache && IsFresh(cache, apiKey, now, TokenCacheTtlMs))
             && ReadUserByToken(users, apiKey).Success? && ReadUserByToken(users, apiKey).value.Some?) ==>
      r.cache == cache[apiKey := Cached(ReadUserByToken(users, apiKey).value.value, now)]
    ensures ReadUserByToken(users, apiKey).Failure? || ReadUserByToken(users, apiKey) == Success(None) ==>
      r.cache == cache
  {
    if apiKey == "" then UserFetch(Success(None), cache)
    else if checkCache && IsFresh(cache, apiKey, now, TokenCacheTtlMs) then
      UserFetch(Success(Some(cache[apiKey].value)), cache)
    else
      match ReadUserByToken(users, apiKey)
      case Success(Some(u)) => UserFetch(Success(Some(u)), cache[apiKey := Cached(u, now)])
      case r => UserFetch(r, cache)
  }

  /**
   * The getUser handler: `fetchUser` without the cache, then
   * `user.apiKey = user.apiKey ? "********" : ""` on the returned object,
   * which is also the object just placed in the user-by-id cache.
   */
  function GetUserOutcome(users: seq<Doc>, cache: map<string, Cached<User>>, userId: string, now: int): (r: UserFetch)
    ensures r.result.Success? && r.result.value.Some? <==> ReadUser(users, userId).Success? && ReadUser(users, userId).value.Some?
    ensures r.result.Success? && r.result.value.Some? ==>
      && r.result.value.value == RedactApiKey(ReadUser(users, userId).value.value)
      && r.cache == cache[userId := Cached(r.result.value.value, now)]
    ensures r.result.Failure? || r.result == Success(None) ==> r.result == ReadUser(users, userId) && r.cache == cache
  {
    var fetched := FetchUserOutcome(users, cache, userId, false, now);
    match fetched.result
    case Success(Some(u)) => UserFetch(Success(Some(RedactApiKey(u))), cache[userId := Cached(RedactApiKey(u), now)])
    case r => UserFetch(r, fetched.cache)
  }

  /** Two users that differ at most in their API key. */
  predicate SameExceptApiKey(a: User, b: User) {
    a.(apiKey := None) == b.(apiKey := None)
  }

  /** Each cached user is the stored user of that id, except that its API key may have been masked. */
  ghost predicate UserCacheFaithful(users: seq<Doc>, cache: map<string, Cached<User>>) {
    forall userId | userId in cache ::
      ReadUser(users, userId).Success? && ReadUser(users, userId).value.Some? &&
      SameExceptApiKey(cache[userId].value, ReadUser(users, userId).value.value)
  }

  /** Each user cached under an API key is the stored user holding that key. */
  ghost predicate TokenCacheFaithful(users: seq<Doc>, cache: map<string, Cached<User>>) {
    forall apiKey | apiKey in cache :: ReadUserByToken(users, apiKey) == Success(Some(cache[apiKey].value))
  }

  /** Two answers agree up to the API key of a found user. */
  predicate AgreeExceptApiKey(a: Result<Option<User>, Error>, b: Result<Option<User>, Error>) {
    if a.Success? && a.value.Some? && b.Success? && b.value.Some? then SameExceptApiKey(a.value.value, b.value.value)
    else a == b
  }

  /**
   * With a faithful cache, `fetchUser` agrees with the collection on every
   * field but the API key (exactly, without `checkCache`), and keeps the
   * cache faithful.
   */
  lemma FetchUserFaithful(users: seq<Doc>, cache: map<string, Cached<User>>, userId: string, checkCache: bool, now: int)
    requires UserCacheFaithful(users, cache)
    ensures AgreeExceptApiKey(FetchUserOutcome(users, cache, userId, checkCache, now).result, ReadUser(users, userId))
    ensures !checkCache ==> FetchUserOutcome(users, cache, userId, checkCache, now).result == ReadUser(users, userId)
    ensures UserCacheFaithful(users, FetchUserOutcome(users, cache, userId, checkCache, now).cache)
  {
    var r := FetchUserOutcome(users, cache, userId, checkCache, now);
    forall other | other in r.cache
      ensures ReadUser(users, other).Success? && ReadUser(users, other).value.Some? &&
        SameExceptApiKey(r.cache[other].value, ReadUser(users, other).value.value)
    {
      if other != userId || (checkCache && IsFresh(cache, userId, now, UserCacheTtlMs)) {
        assert other in cache && r.cache[other] == cache[other];
      }
    }
  }

  /** With a faithful cache, `fetchUserForApiToken` answers what the collection holds and keeps the cache faithful. */
  lemma FetchUserForApiTokenFaithful(users: seq<Doc>, cache: map<string, Cached<User>>, apiKey: string,
                                     checkCache: bool, now: int)
    requires TokenCacheFaithful(users, cache)
    ensures FetchUserForApiTokenOutcome(users, cache, apiKey, checkCache, now).result
      == if apiKey == "" then Success(None) else ReadUserByToken(users, apiKey)
    ensures TokenCacheFaithful(users, FetchUserForApiTokenOutcome(users, cache, apiKey, checkCache, now).cache)
  {
    if apiKey != "" && checkCache && IsFresh(cache, apiKey, now, TokenCacheTtlMs) {
      assert ReadUserByToken(users, apiKey) == Success(Some(cache[apiKey].value));
    }
  }

  /** The mask getUser writes into the cached user changes no field but the API key. */
  lemma GetUserKeepsFaithful(users: seq<Doc>, cache: map<string, Cached<User>>, userId: string, now: int)
    requires UserCacheFaithful(users, cache)
    ensures UserCacheFaithful(users, GetUserOutcome(users, cache, userId, now).cache)
  {
    var r := GetUserOutcome(users, cache, userId, now);
    forall other | other in r.cache
      ensures ReadUser(users, other).Success? && ReadUser(users, other).value.Some? &&
        SameExceptApiKey(r.cache[other].value, ReadUser(users, other).value.value)
    {
      if other != userId || !(ReadUser(users, userId).Success? && ReadUser(users, userId).value.Some?) {
        assert other in cache && r.cache[other] == cache[other];
      }
    }
  }

  /** The token cache without every entry whose user has the given id. */
  function WithoutUser(cache: map<string, Cached<User>>, userId: string): (r: map<string, Cached<User>>)
    ensures forall k | k in r :: k in cache && r[k] == cache[k] && cache[k].value.userId != userId
    ensures forall k | k in cache && cache[k].value.userId != userId :: k in r
  {
    map k | k in cache && cache[k].value.userId != userId :: cache[k]
  }

  /**
   * `insertUser` keeps both caches faithful: a present id is left alone, a
   * new user is appended after every document a cached entry came from.
   */
  lemma InsertUserKeepsFaithful(users: seq<Doc>, userCache: map<string, Cached<User>>,
                                tokenCache: map<string, Cached<User>>, u: User)
    requires UserCacheFaithful(users, userCache) && TokenCacheFaithful(users, tokenCache)
    ensures UserIdField in EncodeUser(u)
    ensures UserCacheFaithful(InsertIfAbsent(users, UserIdField, EncodeUser(u)), userCache - {u.userId})
    ensures TokenCacheFaithful(InsertIfAbsent(users, UserIdField, EncodeUser(u)), WithoutUser(tokenCache, u.userId))
  {
    assert UserFieldValue(u, UserIdField).Some?;
    if FindIndex(users, UserIdField, EncodeUser(u)[UserIdField]).None? {
      AppendKeepsUserCache(users, userCache - {u.userId}, EncodeUser(u));
      AppendKeepsTokenCache(users, WithoutUser(tokenCache, u.userId), EncodeUser(u));
    }
  }

  lemma AppendKeepsUserCache(users: seq<Doc>, cache: map<string, Cached<User>>, d: Doc)
    requires UserCacheFaithful(users, cache)
    ensures UserCacheFaithful(users + [d], cache)
  {
    forall other | other in cache ensures ReadUser(users + [d], other) == ReadUser(users, other) {
      FindOneAfterAppend(users, d, UserIdField, VString(other));
    }
  }

  lemma AppendKeepsTokenCache(users: seq<Doc>, cache: map<string, Cached<User>>, d: Doc)
    requires TokenCacheFaithful(users, cache)
    ensures TokenCacheFaithful(users + [d], cache)
  {
    forall k | k in cache ensures ReadUserByToken(users + [d], k) == ReadUserByToken(users, k) {
      assert ReadUserByToken(users, k) == Success(Some(cache[k].value));
      assert FindOne(users, ApiKeyField, VString(k)).Some?;
      FindOneAfterAppend(users, d, ApiKeyField, VString(k));
    }
  }

  /**
   * `updateUser` drops the user's entries; when the update leaves the id
   * alone and does not hand out an API key some cached entry is keyed by,
   * both caches stay faithful.
   */
  lemma UpdateUserKeepsFaithful(users: seq<Doc>, userCache: map<string, Cached<User>>,
                                tokenCache: map<string, Cached<User>>, userId: string,
                                update: map<Field, Option<Value>>, toSet: map<Field, Value>, toUnset: set<Field>)
    requires UserCacheFaithful(users, userCache) && TokenCacheFaithful(users, tokenCache)
    requires toSet == SetPart(update) && toUnset == UnsetPart(update)
    requires UserIdField !in update && IssuesNoCachedKey(update, tokenCache)
    ensures UserCacheFaithful(UpdateOne(users, UserIdField, VString(userId), toSet, toUnset), userCache - {userId})
    ensures TokenCacheFaithful(UpdateOne(users, UserIdField, VString(userId), toSet, toUnset),
                               WithoutUser(tokenCache, userId))
  {
    match FindIndex(users, UserIdField, VString(userId))
    case None =>
    case Some(i) =>
      assert UserIdField !in toSet && UserIdField !in toUnset;
      ReplaceKeepsUserCache(users, userCache - {userId}, userId, i, ApplyUpdate(users[i], toSet, toUnset));
      forall k | k in WithoutUser(tokenCache, userId)
        ensures ApiKeyField in toSet ==> toSet[ApiKeyField] != VString(k)
      {
        assert ApiKeyField in toSet ==> update[ApiKeyField] == Some(toSet[ApiKeyField]);
      }
      ReplaceKeepsTokenCache(users, tokenCache, userId, i, toSet, toUnset);
  }

  lemma ReplaceKeepsUserCache(users: seq<Doc>, cache: map<string, Cached<User>>, userId: string, i: nat, updated: Doc)
    requires UserCacheFaithful(users, cache) && userId !in cache
    requires FindIndex(users, UserIdField, VString(userId)) == Some(i)
    requires UserIdField in updated && updated[UserIdField] == VString(userId)
    ensures UserCacheFaithful(users[i := updated], cache)
  {
    forall other | other in cache ensures ReadUser(users[i := updated], other) == ReadUser(users, other) {
      assert VString(other) != VString(userId);
      FindOneAfterReplace(users, i, updated, UserIdField, VString(other));
    }
  }

  lemma ReplaceKeepsTokenCache(users: seq<Doc>, tokenCache: map<string, Cached<User>>, userId: string, i: nat,
                               toSet: map<Field, Value>, toUnset: set<Field>)
    requires TokenCacheFaithful(users, tokenCache)
    requires FindIndex(users, UserIdField, VString(userId)) == Some(i)
    requires forall k | k in WithoutUser(tokenCache, userId) :: ApiKeyField in toSet ==> toSet[ApiKeyField] != VString(k)
    ensures TokenCacheFaithful(users[i := ApplyUpdate(users[i], toSet, toUnset)], WithoutUser(tokenCache, userId))
  {
    forall k | k in WithoutUser(tokenCache, userId)
      ensures ReadUserByToken(users[i := ApplyUpdate(users[i], toSet, toUnset)], k) == ReadUserByToken(users, k)
    {
      TokenEntrySurvivesUpdate(users, tokenCache, userId, i, toSet, toUnset, k);
    }
  }

  lemma TokenEntrySurvivesUpdate(users: seq<Doc>, tokenCache: map<string, Cached<User>>, userId: string, i: nat,
                                 toSet: map<Field, Value>, toUnset: set<Field>, k: string)
    requires TokenCacheFaithful(users, tokenCache)
    requires FindIndex(users, UserIdField, VString(userId)) == Some(i)
    requires k in tokenCache && tokenCache[k].value.userId != userId
    requires ApiKeyField in toSet ==> toSet[ApiKeyField] != VString(k)
    ensures ReadUserByToken(users[i := ApplyUpdate(users[i], toSet, toUnset)], k) == ReadUserByToken(users, k)
  {
    var j := FindIndex(users, ApiKeyField, VString(k));
    assert ReadUserByToken(users, k) == Success(Some(tokenCache[k].value));
    assert j.Some? && DecodeUser(users[j.value]) == Some(tokenCache[k].value);
    assert users[j.value][UserIdField] != VString(userId);
    FindOneAfterReplace(users, i, ApplyUpdate(users[i], toSet, toUnset), ApiKeyField, VString(k));
  }

  /** The update does not give a user an API key that some cached entry is keyed by. */
  predicate IssuesNoCachedKey(update: map<Field, Option<Value>>, tokenCache: map<string, Cached<User>>) {
    ApiKeyField in update ==> forall k | k in tokenCache :: update[ApiKeyField] != Some(VString(k))
  }

  /** The user collection and the two user caches of one server process. */
  class UserDirectory {
    var users: seq<Doc>
    var userCache: map<string, Cached<User>>
    var tokenCache: map<string, Cached<User>>

    ghost predicate Valid()
      reads this
    {
      UserCacheFaithful(users, userCache) && TokenCacheFaithful(users, tokenCache)
    }

    constructor(users: seq<Doc>)
      ensures this.users == users && userCache == map[] && tokenCache == map[]
      ensures Valid()
    {
      this.users := users;
      userCache := map[];
      tokenCache := map[];
    }

    /** `fetchUser(userId, { checkCache })`. */
    method FetchUser(userId: string, checkCache: bool, now: int) returns (r: Result<Option<User>, Error>)
      modifies this`userCache
      ensures r == FetchUserOutcome(users, old(userCache), userId, checkCache, now).result
      ensures userCache == FetchUserOutcome(users, old(userCache), userId, checkCache, now).cache
      ensures old(Valid()) ==> Valid() && AgreeExceptApiKey(r, ReadUser(users, userId))
    {
      ghost var out := FetchUserOutcome(users, userCache, userId, checkCache, now);
      assert Valid() ==> UserCacheFaithful(users, out.cache) && AgreeExceptApiKey(out.result, ReadUser(users, userId)) by {
        if Valid() {
          FetchUserFaithful(users, userCache, userId, checkCache, now);
        }
      }
      var user: Option<User> := None;
      if checkCache && userId in userCache && now - userCache[userId].timestamp < UserCacheTtlMs {
        user := Some(userCache[userId].value);
      }
      if user.None? {
        var doc := FindOne(users, UserIdField, VString(userId));
        if doc.None? {
          assert ReadUser(users, userId) == Success(None);
          return Success(None);
        }
        var decoded := DecodeUser(doc.value);
        if decoded.None? {
          assert ReadUser(users, userId) == Failure(InvalidUserInDatabase);
          return Failure(InvalidUserInDatabase);
        }
        assert ReadUser(users, userId) == Success(decoded);
        user := decoded;
        userCache := userCache[userId := Cached(decoded.value, now)];
      }
      r := Success(user);
      assert r == out.result && userCache == out.cache;
    }

    /** `fetchUserForApiToken(apiKey, { checkCache })`. */
    method FetchUserForApiToken(apiKey: string, checkCache: bool, now: int) returns (r: Result<Option<User>, Error>)
      modifies this`tokenCache
      ensures r == FetchUserForApiTokenOutcome(users, old(tokenCache), apiKey, checkCache, now).result
      ensures tokenCache == FetchUserForApiTokenOutcome(users, old(tokenCache), apiKey, checkCache, now).cache
      ensures old(Valid()) ==> Valid() && r == if apiKey == "" then Success(None) else ReadUserByToken(users, apiKey)
    {
      if Valid() {
        FetchUserForApiTokenFaithful(users, tokenCache, apiKey, checkCache, now);
      }
      if apiKey == "" {
        return Success(None);
      }
      var user: Option<User> := None;
      if checkCache && apiKey in tokenCache && now - tokenCache[apiKey].timestamp < TokenCacheTtlMs {
        user := Some(tokenCache[apiKey].value);
      }
      if user.None? {
        var doc := FindOne(users, ApiKeyField, VString(apiKey));
        if doc.None? {
          assert ReadUserByToken(users, apiKey) == Success(None);
          return Success(None);
        }
        var decoded := DecodeUser(doc.value);
        if decoded.None? {
          assert ReadUserByToken(users, apiKey) == Failure(InvalidUserInDatabase);
          return Failure(InvalidUserInDatabase);
        }
        assert ReadUserByToken(users, apiKey) == Success(decoded);
        user := decoded;
        tokenCache := tokenCache[apiKey := Cached(decoded.value, now)];
      }
      r := Success(user);
    }

    /** The getUser handler's read: the reply and the cached user both carry the masked key. */
    method GetUser(userId: string, now: int) returns (r: Result<Option<User>, Error>)
      modifies this`userCache
      ensures r == GetUserOutcome(users, old(userCache), userId, now).result
      ensures userCache == GetUserOutcome(users, old(userCache), userId, now).cache
      ensures old(Valid()) ==> Valid()
    {
      if Valid() {
        GetUserKeepsFaithful(users, userCache, userId, now);
      }
      r := FetchUser(userId, false, now);
      if r.Success? && r.value.Some? {
        var masked := RedactApiKey(r.value.value);
        userCache := userCache[userId := Cached(masked, userCache[userId].timestamp)];
        r := Success(Some(masked));
      }
    }

    /** The `for (const k in userMemoryCacheForApiToken)` loop that drops the entries of one user. */
    method DropTokensOf(userId: string)
      modifies this`tokenCache
      ensures tokenCache == WithoutUser(old(tokenCache), userId)
    {
      var pending := tokenCache.Keys;
      while pending != {}
        invariant pending <= old(tokenCache).Keys
        invariant forall k | k in tokenCache :: k in old(tokenCache) && tokenCache[k] == old(tokenCache)[k]
        invariant forall k | k in old(tokenCache) && k !in pending ::
          k in tokenCache <==> old(tokenCache)[k].value.userId != userId
        invariant forall k | k in pending :: k in tokenCache
        decreases pending
      {
        var k :| k in pending;
        if tokenCache[k].value.userId == userId {
          tokenCache := tokenCache - {k};
        }
        pending := pending - {k};
      }
      assert tokenCache.Keys == WithoutUser(old(tokenCache), userId).Keys;
    }

    /** `insertUser(user)`: insert if the id is new, then drop the user's cache entries. */
    method InsertUser(u: User)
      modifies this`users, this`userCache, this`tokenCache
      ensures UserIdField in EncodeUser(u)
      ensures users == InsertIfAbsent(old(users), UserIdField, EncodeUser(u))
      ensures userCache == old(userCache) - {u.userId}
      ensures tokenCache == WithoutUser(old(tokenCache), u.userId)
      ensures old(Valid()) ==> Valid()
    {
      if Valid() {
        InsertUserKeepsFaithful(users, userCache, tokenCache, u);
      }
      assert UserFieldValue(u, UserIdField).Some?;
      users := InsertIfAbsent(users, UserIdField, EncodeUser(u));
      if u.userId in userCache {
        userCache := userCache - {u.userId};
      } else {
        RemoveAbsentKey(userCache, u.userId);
      }
      DropTokensOf(u.userId);
    }

    /** `updateUser(userId, update)`: a split `$set`/`$unset` update, then the user's cache entries are dropped. */
    method UpdateUser(userId: string, update: map<Field, Option<Value>>)
      modifies this`users, this`userCache, this`tokenCache
      ensures users == UpdateOne(old(users), UserIdField, VString(userId), SetPart(update), UnsetPart(update))
      ensures userCache == old(userCache) - {userId}
      ensures tokenCache == WithoutUser(old(tokenCache), userId)
      ensures (old(Valid()) && UserIdField !in update && IssuesNoCachedKey(update, old(tokenCache))) ==> Valid()
    {
      var toSet, toUnset := SplitUpdate(update);
      ghost var keep := Valid() && UserIdField !in update && IssuesNoCachedKey(update, tokenCache);
      ghost var users', userCache' := UpdateOne(users, UserIdField, VString(userId), toSet, toUnset), userCache - {userId};
      ghost var tokenCache' := WithoutUser(tokenCache, userId);
      assert keep ==> UserCacheFaithful(users', userCache') && TokenCacheFaithful(users', tokenCache') by {
        if keep {
          UpdateUserKeepsFaithful(users, userCache, tokenCache, userId, update, toSet, toUnset);
        }
      }
      users := UpdateOne(users, UserIdField, VString(userId), toSet, toUnset);
      if userId in userCache {
        userCache := userCache - {userId};
      } else {
        RemoveAbsentKey(userCache, userId);
      }
      DropTokensOf(userId);
    }
  }
}
