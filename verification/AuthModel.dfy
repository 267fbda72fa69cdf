/** The authentication tables, the JWT claims, and the outside primitives as parameters. */
module AuthModel {
  import opened Wrappers
  import opened Models
  import opened Tenancy

  // ---------- rows ----------

  datatype UserRow = UserRow(email: string, name: string, role: Role, status: UserStatus, passwordHash: string)

  datatype InviteRow = InviteRow(userId: Id, tokenHash: string, expiresAt: Instant,
                                 acceptedAt: Option<Instant>, createdAt: Instant)

  datatype ApiTokenRow = ApiTokenRow(userId: Id, name: string, tokenHash: string, tokenPrefix: string,
                                     createdAt: Instant, revokedAt: Option<Instant>, lastUsedAt: Option<Instant>)

  datatype RefreshRow = RefreshRow(userId: Id, createdAt: Instant, expiresAt: Instant, revokedAt: Option<Instant>)

  datatype RsaPublic = RsaPublic(modulus: string, exponent: string)

  datatype KeyRow = KeyRow(id: Id, keyType: string, keyUse: string, algorithm: string,
                           material: RsaPublic, isActive: bool, createdAt: Instant)

  datatype Config = Config(
    privateKeyPem: string, publicKeyPem: string, issuer: string, audience: string,
    accessTtlSeconds: nat, refreshTtlSeconds: nat, inviteTtlSeconds: nat, leewaySeconds: nat,
    appBaseUrl: string, adminEmail: string, adminPassword: string, adminName: string)

  /** What happened so far to sessions; not a table, only history. */
  datatype Event = Opened(refreshId: Id, userId: Id) | Rotated(old_: Id, new_: Id)

  datatype AuthState = AuthState(
    users: map<Id, UserRow>,
    invites: map<Id, InviteRow>,
    apiTokens: map<Id, ApiTokenRow>,
    refresh: map<Id, RefreshRow>,
    keys: seq<KeyRow>,
    tables: Tables,
    config: Config,
    log: seq<Event>)

  const NANOS := 1_000_000_000

  function Seconds(t: Instant): nat {
    t / NANOS
  }

  function After(t: Instant, seconds: nat): Instant {
    t + seconds * NANOS
  }

  // ---------- claims ----------

  datatype Json = Text(text: string) | Number(n: nat)

  type Payload = map<string, Json>

  datatype Claims = Claims(jti: string, ret: string, sub: string, email: string, role: string,
                           iss: string, aud: string, iat: nat, exp: nat)

  datatype RefreshClaims = RefreshClaims(jti: string, sub: string, typ: string,
                                         iss: string, aud: string, iat: nat, exp: nat)

  function RoleName(role: Role): string {
    match role
    case SuperAdmin => "super_admin"
    case Admin => "admin"
    case Operator => "operator"
    case Viewer => "viewer"
  }

  function AccessPayload(c: Claims): Payload {
    map["jti" := Text(c.jti), "ret" := Text(c.ret), "sub" := Text(c.sub), "email" := Text(c.email),
        "role" := Text(c.role), "iss" := Text(c.iss), "aud" := Text(c.aud),
        "iat" := Number(c.iat), "exp" := Number(c.exp)]
  }

  function RefreshPayload(c: RefreshClaims): Payload {
    map["jti" := Text(c.jti), "sub" := Text(c.sub), "typ" := Text(c.typ), "iss" := Text(c.iss),
        "aud" := Text(c.aud), "iat" := Number(c.iat), "exp" := Number(c.exp)]
  }

  predicate HasText(p: Payload, key: string) {
    key in p && p[key].Text?
  }

  predicate HasNumber(p: Payload, key: string) {
    key in p && p[key].Number?
  }

  /** Deserialization: every field present with its type; other fields are ignored. */
  function ReadAccess(p: Payload): Option<Claims> {
    if HasText(p, "jti") && HasText(p, "ret") && HasText(p, "sub") && HasText(p, "email") && HasText(p, "role")
       && HasText(p, "iss") && HasText(p, "aud") && HasNumber(p, "iat") && HasNumber(p, "exp")
    then Some(Claims(p["jti"].text, p["ret"].text, p["sub"].text, p["email"].text, p["role"].text,
                     p["iss"].text, p["aud"].text, p["iat"].n, p["exp"].n))
    else None
  }

  function ReadRefresh(p: Payload): Option<RefreshClaims> {
    if HasText(p, "jti") && HasText(p, "sub") && HasText(p, "typ") && HasText(p, "iss") && HasText(p, "aud")
       && HasNumber(p, "iat") && HasNumber(p, "exp")
    then Some(RefreshClaims(p["jti"].text, p["sub"].text, p["typ"].text, p["iss"].text, p["aud"].text,
                            p["iat"].n, p["exp"].n))
    else None
  }

  /** Each kind of claims is read back, and is never read as the other kind. */
  lemma ClaimsKinds(a: Claims, r: RefreshClaims)
    ensures ReadAccess(AccessPayload(a)) == Some(a) && ReadRefresh(AccessPayload(a)) == None
    ensures ReadRefresh(RefreshPayload(r)) == Some(r) && ReadAccess(RefreshPayload(r)) == None
  {
  }

  // ---------- primitives ----------

  datatype Header = Header(kid: Option<string>)

  /** Hashing, identifiers as text, and RS256 tokens; nothing is known of them but `Lawful`. */
  datatype Primitives = Primitives(
    hashPassword: (string, string) -> Option<string>,   // password, salt
    verifyPassword: (string, string) -> bool,           // password, stored hash
    tokenHash: string -> string,
    showId: Id -> string,
    parseId: string -> Option<Id>,
    publicKeyOf: string -> Option<RsaPublic>,           // of a private key PEM, if it is one
    readPublicKey: string -> Option<RsaPublic>,         // of a public key PEM, if it is one
    usable: RsaPublic -> bool,                          // as a verification key
    encode: (Header, Payload, string) -> string,
    decodeHeader: string -> Option<Header>,
    decode: (string, RsaPublic) -> Option<Payload>)     // if the signature verifies

  const API_TOKEN_PREFIX := "wara_"

  ghost predicate Lawful(p: Primitives) {
    && (forall password, salt :: p.hashPassword(password, salt).Some? ==>
          && p.hashPassword(password, salt).value != ""
          && p.verifyPassword(password, p.hashPassword(password, salt).value))
    && (forall id: Id :: p.parseId(p.showId(id)) == Some(id))
    && (forall h, c, k :: p.decodeHeader(p.encode(h, c, k)) == Some(h))
    && (forall h, c, k :: p.publicKeyOf(k).Some? ==> p.decode(p.encode(h, c, k), p.publicKeyOf(k).value) == Some(c))
    && (forall h, c, k, pub :: p.decode(p.encode(h, c, k), pub).Some? ==> p.decode(p.encode(h, c, k), pub).value == c)
    && (forall k :: p.publicKeyOf(k).Some? ==> p.usable(p.publicKeyOf(k).value))
    && (forall t :: p.decodeHeader(t).Some? ==> '.' in t)
    && (forall h, c, k :: !(API_TOKEN_PREFIX <= p.encode(h, c, k)))
  }

  /** What start-up checks before serving: both keys are readable and belong together. */
  ghost predicate ValidKeys(p: Primitives, config: Config) {
    && p.publicKeyOf(config.privateKeyPem).Some?
    && p.readPublicKey(config.publicKeyPem) == p.publicKeyOf(config.privateKeyPem)
  }

  /** Random characters of a token: URL-safe base64. */
  predicate IsTokenText(s: string) {
    forall i | 0 <= i < |s| ::
      'a' <= s[i] <= 'z' || 'A' <= s[i] <= 'Z' || '0' <= s[i] <= '9' || s[i] == '-' || s[i] == '_'
  }

  // ---------- lookups ----------

  ghost function UserByEmail(users: map<Id, UserRow>, email: string): Option<Id> {
    if exists id :: id in users && users[id].email == email
    then var id :| id in users && users[id].email == email; Some(id) else None
  }

  ghost function InviteByHash(invites: map<Id, InviteRow>, hash: string): Option<Id> {
    if exists id :: id in invites && invites[id].tokenHash == hash
    then var id :| id in invites && invites[id].tokenHash == hash; Some(id) else None
  }

  ghost function ApiTokenByHash(tokens: map<Id, ApiTokenRow>, hash: string): Option<Id> {
    if exists id :: id in tokens && tokens[id].tokenHash == hash
    then var id :| id in tokens && tokens[id].tokenHash == hash; Some(id) else None
  }

  ghost predicate UniqueEmails(users: map<Id, UserRow>) {
    forall a, b | a in users && b in users && users[a].email == users[b].email :: a == b
  }

  ghost predicate UniqueInviteHashes(invites: map<Id, InviteRow>) {
    forall a, b | a in invites && b in invites && invites[a].tokenHash == invites[b].tokenHash :: a == b
  }

  ghost predicate UniqueTokenHashes(tokens: map<Id, ApiTokenRow>) {
    forall a, b | a in tokens && b in tokens && tokens[a].tokenHash == tokens[b].tokenHash :: a == b
  }

  /** The unique constraints of the database. */
  ghost predicate UniqueColumns(users: map<Id, UserRow>, invites: map<Id, InviteRow>, tokens: map<Id, ApiTokenRow>) {
    UniqueEmails(users) && UniqueInviteHashes(invites) && UniqueTokenHashes(tokens)
  }

  function RolesOf(roles: seq<RoleRow>, userId: Id): seq<WorkspaceRole> {
    if roles == [] then []
    else (if roles[0].userId == userId then [WorkspaceRole(roles[0].workspaceId, roles[0].role)] else [])
         + RolesOf(roles[1..], userId)
  }

  function UserFrom(id: Id, row: UserRow, roles: seq<RoleRow>): User {
    User(id, row.email, row.name, row.role, row.status, if row.role == SuperAdmin then [] else RolesOf(roles, id))
  }

  // ---------- signing keys ----------

  predicate HasJwkMetadata(k: KeyRow) {
    k.keyType == "RSA" && k.keyUse == "sig" && k.algorithm == "RS256"
  }

  /** The index of the first row that carries the key. */
  function FindKey(keys: seq<KeyRow>, material: RsaPublic): (r: Option<nat>)
    ensures r.Some? ==> r.value < |keys| && keys[r.value].material == material
    ensures r.None? ==> forall i | 0 <= i < |keys| :: keys[i].material != material
  {
    if keys == [] then None
    else if keys[0].material == material then Some(0)
    else
      match FindKey(keys[1..], material)
      case None => None
      case Some(i) => Some(i + 1)
  }

  function KeyById(keys: seq<KeyRow>, id: Id): (r: Option<KeyRow>)
    ensures r.Some? ==> r.value in keys && r.value.id == id
    ensures r.None? ==> forall i | 0 <= i < |keys| :: keys[i].id != id
  {
    if keys == [] then None else if keys[0].id == id then Some(keys[0]) else KeyById(keys[1..], id)
  }

  /** Of the active rows the latest; of several equally late, the last. */
  function ActiveKey(keys: seq<KeyRow>): (r: Option<KeyRow>)
    ensures r.Some? ==> r.value in keys && r.value.isActive
    ensures r.None? ==> forall i | 0 <= i < |keys| :: !keys[i].isActive
  {
    if keys == [] then None
    else
      var front, last := ActiveKey(keys[..|keys| - 1]), keys[|keys| - 1];
      if last.isActive && (front.None? || front.value.createdAt <= last.createdAt) then Some(last) else front
  }

  ghost predicate UniqueKeyIds(keys: seq<KeyRow>) {
    forall i, j | 0 <= i < |keys| && 0 <= j < |keys| && keys[i].id == keys[j].id :: i == j
  }

  function Deactivated(keys: seq<KeyRow>): (r: seq<KeyRow>)
    ensures |r| == |keys| && forall i | 0 <= i < |r| :: r[i] == keys[i].(isActive := false)
  {
    seq(|keys|, i requires 0 <= i < |keys| => keys[i].(isActive := false))
  }

  /** The key table after one synchronization with the configured key. */
  function SyncKeys(keys: seq<KeyRow>, material: RsaPublic, freshId: Id, now: Instant): seq<KeyRow> {
    match FindKey(keys, material)
    case Some(i) => Deactivated(keys)[i := KeyRow(keys[i].id, "RSA", "sig", "RS256", material, true, keys[i].createdAt)]
    case None => Deactivated(keys) + [KeyRow(freshId, "RSA", "sig", "RS256", material, true, now)]
  }
}
