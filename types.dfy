/**
 * The entities of the gateway (types.ts): zones with their member grants,
 * users, and the documents the record store keeps for them. A stored
 * document is a map from field names to values; reading one back goes
 * through the schema check that `isKacheryZone` / `isKacheryUser` perform.
 */
module Types {
  import opened Wrappers
  import opened JsStrings

  /** One member grant of a zone (KacheryZoneUser). */
  datatype ZoneUser = ZoneUser(userId: string, admin: bool, uploadFiles: bool, downloadFiles: bool)

  /** A tenant namespace (KacheryZone); optional fields are `None` when undefined. */
  datatype Zone = Zone(
    zoneName: string,
    userId: string,
    users: seq<ZoneUser>,
    publicDownload: bool,
    publicUpload: Option<bool>,
    bucketUri: Option<string>,
    directory: Option<string>,
    credentials: Option<string>)

  /** An identity record (KacheryUser); `apiKey == None` is the stored `null`. */
  datatype User = User(
    userId: string,
    name: string,
    email: string,
    researchDescription: Option<string>,
    apiKey: Option<string>)

  /** The errors the core throws, one constructor per message. */
  datatype Error =
    | BucketUriNotSet(zoneName: string)
    | CredentialsNotSet(zoneName: string)
    | FileTooLarge(size: int, maximum: int)
    | UnsupportedHashAlgorithm(hashAlg: string)
    | InvalidHash(hash: string)
    | InvalidWorkToken
    | InvalidZoneInDatabase
    | InvalidUserInDatabase

  /** The redaction marker that replaces a secret. */
  const Mask: string := "********"

  /**
   * The field names of the stored zone and user documents. Every document
   * the gateway writes, and every update it issues, uses only these names.
   */
  datatype Field =
    | ZoneNameField | UserIdField | UsersField | PublicDownloadField | PublicUploadField
    | BucketUriField | DirectoryField | CredentialsField
    | NameField | EmailField | ResearchDescriptionField | ApiKeyField

  /** A field value of a stored document. */
  datatype Value = VString(s: string) | VBool(b: bool) | VNull | VZoneUsers(grants: seq<ZoneUser>)

  /** A stored document: its fields; a missing key is an absent (or unset) field. */
  type Doc = map<Field, Value>

  predicate HasString(d: Doc, key: Field) {
    key in d && d[key].VString?
  }

  predicate HasBool(d: Doc, key: Field) {
    key in d && d[key].VBool?
  }

  /** `optional(isString)`: the field is absent or a string. */
  predicate OptString(d: Doc, key: Field) {
    key !in d || d[key].VString?
  }

  /** `optional(isBoolean)`: the field is absent or a boolean. */
  predicate OptBool(d: Doc, key: Field) {
    key !in d || d[key].VBool?
  }

  /** The value a document holds under a field, `None` when the field is absent. */
  function FieldOf(d: Doc, key: Field): Option<Value> {
    if key in d then Some(d[key]) else None
  }

  function GetString(d: Doc, key: Field): Option<string>
    requires OptString(d, key)
  {
    if key in d then Some(d[key].s) else None
  }

  function GetBool(d: Doc, key: Field): Option<bool>
    requires OptBool(d, key)
  {
    if key in d then Some(d[key].b) else None
  }

  /** `isKacheryZone`: the document has every required field with the right type. */
  predicate IsZoneDoc(d: Doc) {
    && HasString(d, ZoneNameField) && HasString(d, UserIdField)
    && UsersField in d && d[UsersField].VZoneUsers?
    && HasBool(d, PublicDownloadField) && OptBool(d, PublicUploadField)
    && OptString(d, BucketUriField) && OptString(d, DirectoryField) && OptString(d, CredentialsField)
  }

  /** Reading a zone document back; `None` is the "Invalid zone in database" case. */
  function DecodeZone(d: Doc): (r: Option<Zone>)
    ensures r.Some? <==> IsZoneDoc(d)
    ensures r.Some? ==> d[ZoneNameField] == VString(r.value.zoneName) && d[UserIdField] == VString(r.value.userId)
    ensures r.Some? ==> forall k | k in ZoneFields :: FieldOf(d, k) == ZoneFieldValue(r.value, k)
  {
    if IsZoneDoc(d) then
      Some(Zone(d[ZoneNameField].s, d[UserIdField].s, d[UsersField].grants, d[PublicDownloadField].b,
                GetBool(d, PublicUploadField), GetString(d, BucketUriField), GetString(d, DirectoryField),
                GetString(d, CredentialsField)))
    else None
  }

  function StringValue(s: Option<string>): Option<Value> {
    if s.Some? then Some(VString(s.value)) else None
  }

  function BoolValue(b: Option<bool>): Option<Value> {
    if b.Some? then Some(VBool(b.value)) else None
  }

  /** The value a zone stores under each field; `None` leaves the field out. */
  function ZoneFieldValue(z: Zone, k: Field): Option<Value> {
    match k
    case ZoneNameField => Some(VString(z.zoneName))
    case UserIdField => Some(VString(z.userId))
    case UsersField => Some(VZoneUsers(z.users))
    case PublicDownloadField => Some(VBool(z.publicDownload))
    case PublicUploadField => BoolValue(z.publicUpload)
    case BucketUriField => StringValue(z.bucketUri)
    case DirectoryField => StringValue(z.directory)
    case CredentialsField => StringValue(z.credentials)
    case _ => None
  }

  const ZoneFields: set<Field> := {ZoneNameField, UserIdField, UsersField, PublicDownloadField,
    PublicUploadField, BucketUriField, DirectoryField, CredentialsField}

  /** The document a zone is stored as: exactly its defined fields. */
  function EncodeZone(z: Zone): (d: Doc)
    ensures forall k :: k in d <==> ZoneFieldValue(z, k).Some?
    ensures forall k | k in d :: d[k] == ZoneFieldValue(z, k).value
  {
    map k | k in ZoneFields && ZoneFieldValue(z, k).Some? :: ZoneFieldValue(z, k).value
  }

  /** A stored zone reads back as itself. */
  lemma DecodeEncodeZone(z: Zone)
    ensures DecodeZone(EncodeZone(z)) == Some(z)
  {
    var d := EncodeZone(z);
    assert ZoneFieldValue(z, ZoneNameField).Some? && ZoneFieldValue(z, UserIdField).Some?;
    assert ZoneFieldValue(z, UsersField).Some? && ZoneFieldValue(z, PublicDownloadField).Some?;
    assert IsZoneDoc(d);
    assert GetBool(d, PublicUploadField) == z.publicUpload by {
      assert ZoneFieldValue(z, PublicUploadField) == BoolValue(z.publicUpload);
    }
    assert GetString(d, BucketUriField) == z.bucketUri by {
      assert ZoneFieldValue(z, BucketUriField) == StringValue(z.bucketUri);
    }
    assert GetString(d, DirectoryField) == z.directory by {
      assert ZoneFieldValue(z, DirectoryField) == StringValue(z.directory);
    }
    assert GetString(d, CredentialsField) == z.credentials by {
      assert ZoneFieldValue(z, CredentialsField) == StringValue(z.credentials);
    }
  }

  /** `isKacheryUser`: `apiKey` is required but may be null. */
  predicate IsUserDoc(d: Doc) {
    && HasString(d, UserIdField) && HasString(d, NameField) && HasString(d, EmailField)
    && OptString(d, ResearchDescriptionField)
    && ApiKeyField in d && (d[ApiKeyField].VString? || d[ApiKeyField].VNull?)
  }

  /** Reading a user document back; `None` is the "Invalid user in database" case. */
  function DecodeUser(d: Doc): (r: Option<User>)
    ensures r.Some? <==> IsUserDoc(d)
    ensures r.Some? ==> d[UserIdField] == VString(r.value.userId)
    ensures r.Some? ==> d[ApiKeyField] == (if r.value.apiKey.Some? then VString(r.value.apiKey.value) else VNull)
    ensures r.Some? ==> forall k | k in UserFields :: FieldOf(d, k) == UserFieldValue(r.value, k)
  {
    if IsUserDoc(d) then
      Some(User(d[UserIdField].s, d[NameField].s, d[EmailField].s, GetString(d, ResearchDescriptionField),
                if d[ApiKeyField].VString? then Some(d[ApiKeyField].s) else None))
    else None
  }

  /** The value a user stores under each field; a missing API key is stored as `null`. */
  function UserFieldValue(u: User, k: Field): Option<Value> {
    match k
    case UserIdField => Some(VString(u.userId))
    case NameField => Some(VString(u.name))
    case EmailField => Some(VString(u.email))
    case ResearchDescriptionField => StringValue(u.researchDescription)
    case ApiKeyField => Some(if u.apiKey.Some? then VString(u.apiKey.value) else VNull)
    case _ => None
  }

  const UserFields: set<Field> := {UserIdField, NameField, EmailField, ResearchDescriptionField, ApiKeyField}

  /** The document a user is stored as: exactly its defined fields. */
  function EncodeUser(u: User): (d: Doc)
    ensures forall k :: k in d <==> UserFieldValue(u, k).Some?
    ensures forall k | k in d :: d[k] == UserFieldValue(u, k).value
  {
    map k | k in UserFields && UserFieldValue(u, k).Some? :: UserFieldValue(u, k).value
  }

  /** A stored user reads back as itself. */
  lemma DecodeEncodeUser(u: User)
    ensures DecodeUser(EncodeUser(u)) == Some(u)
  {
    var d := EncodeUser(u);
    assert UserFieldValue(u, UserIdField).Some? && UserFieldValue(u, NameField).Some?;
    assert UserFieldValue(u, EmailField).Some? && UserFieldValue(u, ApiKeyField).Some?;
    assert GetString(d, ResearchDescriptionField) == u.researchDescription by {
      assert UserFieldValue(u, ResearchDescriptionField) == StringValue(u.researchDescription);
    }
  }

  /**
   * `zone.credentials = zone.credentials ? "********" : undefined`: what a
   * reader who did not ask for credentials sees.
   */
  function RedactCredentials(z: Zone): (r: Zone)
    ensures r.credentials == (if Truthy(z.credentials) then Some(Mask) else None)
    ensures r.(credentials := z.credentials) == z
  {
    z.(credentials := if Truthy(z.credentials) then Some(Mask) else None)
  }

  /** `user.apiKey = user.apiKey ? "********" : ""` in the getUser and getUsers handlers. */
  function RedactApiKey(u: User): (r: User)
    ensures r.apiKey == Some(if Truthy(u.apiKey) then Mask else "")
    ensures r.(apiKey := u.apiKey) == u
  {
    u.(apiKey := Some(if Truthy(u.apiKey) then Mask else ""))
  }

  /** Redaction never reveals the secret, and redacting twice changes nothing more. */
  lemma RedactionHidesSecrets(z: Zone, u: User)
    ensures RedactCredentials(z).credentials.Some? ==> RedactCredentials(z).credentials.value == Mask
    ensures RedactCredentials(RedactCredentials(z)) == RedactCredentials(z)
    ensures RedactApiKey(u).apiKey.value in {Mask, ""}
    ensures RedactApiKey(RedactApiKey(u)) == RedactApiKey(u)
  {
  }
}
