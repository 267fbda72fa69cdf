/**
  * Every call of the authentication service as one step: the state it leaves and what it
  * answers. A call reads the clock once; nothing is assumed about the order of clock readings.
  */
module AuthSteps {
  import opened Wrappers
  import opened Models
  import opened AuthModel
  import Paths
  import Tenancy

  datatype LoginOutput = LoginOutput(token: string, refreshToken: string, user: User)

  datatype InviteInput = InviteInput(inviter: User, workspaceId: Id, email: string, name: string, role: Role)

  datatype InviteOutput = InviteOutput(user: User, inviteLink: string, expiresAt: Instant)

  datatype ApiTokenOutput = ApiTokenOutput(token: string, apiToken: ApiTokenRow)

  const DATABASE_ERROR := Internal("database operation failed")

  ghost function Person(s: AuthState, id: Id): User
    requires id in s.users
  {
    UserFrom(id, s.users[id], s.tables.roles)
  }

  // ---------- tokens ----------

  ghost function Sign(p: Primitives, s: AuthState, payload: Payload): Result<string, ApiError> {
    if p.publicKeyOf(s.config.privateKeyPem).None? then Err(Internal("invalid JWT private key"))
    else
      match ActiveKey(s.keys)
      case None => Err(Internal("active JWT public key is missing"))
      case Some(key) =>
        if !HasJwkMetadata(key) then Err(Internal("active JWT public key has invalid JWK metadata"))
        else Ok(p.encode(Header(Some(p.showId(key.id))), payload, s.config.privateKeyPem))
  }

  ghost function AccessClaimsFor(p: Primitives, s: AuthState, user: User, refreshId: Id, jti: string,
                                 now: Instant): Claims
  {
    Claims(jti, p.showId(refreshId), p.showId(user.id), user.email, RoleName(user.role),
           s.config.issuer, s.config.audience, Seconds(now), Seconds(now) + s.config.accessTtlSeconds)
  }

  ghost function RefreshClaimsFor(p: Primitives, s: AuthState, refreshId: Id, userId: Id, now: Instant): RefreshClaims {
    RefreshClaims(p.showId(refreshId), p.showId(userId), "refresh", s.config.issuer, s.config.audience,
                  Seconds(now), Seconds(After(now, s.config.refreshTtlSeconds)))
  }

  /** The payload of a token whose key is known and whose signature verifies. */
  ghost function OpenToken(p: Primitives, s: AuthState, token: string): Result<Payload, ApiError> {
    var header := p.decodeHeader(token);
    if header.None? || header.value.kid.None? then Err(Unauthorized)
    else
      var kid := p.parseId(header.value.kid.value);
      if kid.None? then Err(Unauthorized)
      else
        match KeyById(s.keys, kid.value)
        case None => Err(Unauthorized)
        case Some(key) =>
          if !HasJwkMetadata(key) then Err(Unauthorized)
          else if !p.usable(key.material) then Err(Internal("invalid JWT public key components"))
          else
            match p.decode(token, key.material)
            case None => Err(Unauthorized)
            case Some(payload) => Ok(payload)
  }

  predicate Current(config: Config, iss: string, aud: string, exp: nat, now: Instant) {
    iss == config.issuer && aud == config.audience && Seconds(now) <= exp + config.leewaySeconds
  }

  ghost function VerifyAccess(p: Primitives, s: AuthState, token: string, now: Instant): Result<Claims, ApiError> {
    match OpenToken(p, s, token)
    case Err(error) => Err(error)
    case Ok(payload) =>
      match ReadAccess(payload)
      case None => Err(Unauthorized)
      case Some(c) => if Current(s.config, c.iss, c.aud, c.exp, now) then Ok(c) else Err(Unauthorized)
  }

  ghost function VerifyRefresh(p: Primitives, s: AuthState, token: string, now: Instant): Result<RefreshClaims,
                               ApiError>
  {
    match OpenToken(p, s, token)
    case Err(error) => Err(error)
    case Ok(payload) =>
      match ReadRefresh(payload)
      case None => Err(Unauthorized)
      case Some(c) =>
        if Current(s.config, c.iss, c.aud, c.exp, now) && c.typ == "refresh" then Ok(c) else Err(Unauthorized)
  }

  /** The refresh row a token stands for, if the row is still good. */
  ghost function ActiveRefresh(p: Primitives, s: AuthState, token: string, now: Instant): (r: Result<Id, ApiError>)
    ensures r.Ok? ==> r.value in s.refresh && s.refresh[r.value].revokedAt.None?
  {
    match VerifyRefresh(p, s, token, now)
    case Err(error) => Err(error)
    case Ok(claims) =>
      var tokenId, userId := p.parseId(claims.jti), p.parseId(claims.sub);
      if tokenId.None? || userId.None? || tokenId.value !in s.refresh then Err(Unauthorized)
      else
        var row := s.refresh[tokenId.value];
        if row.userId != userId.value || row.revokedAt.Some? || row.expiresAt <= now then Err(Unauthorized)
        else Ok(tokenId.value)
  }

  // ---------- sessions ----------

  /** The row is inserted first; only then is the token signed. */
  ghost function IssueRefresh(p: Primitives, s: AuthState, userId: Id, refreshId: Id, now: Instant)
    : (AuthState, Result<string, ApiError>)
  {
    var row := RefreshRow(userId, now, After(now, s.config.refreshTtlSeconds), None);
    (s.(refresh := s.refresh[refreshId := row]),
     Sign(p, s, RefreshPayload(RefreshClaimsFor(p, s, refreshId, userId, now))))
  }

  ghost function Happened(s: AuthState, e: Event): AuthState {
    s.(log := s.log + [e])
  }

  /** A new session for a user: its refresh row, then both tokens. */
  ghost function OpenSession(p: Primitives, s: AuthState, user: User, refreshId: Id, jti: string, now: Instant)
    : (AuthState, Result<LoginOutput, ApiError>)
  {
    var (issued, refreshToken) := IssueRefresh(p, s, user.id, refreshId, now);
    var s1 := Happened(issued, Opened(refreshId, user.id));
    (s1, SignBoth(p, s1, refreshToken, user, refreshId, jti, now))
  }

  ghost function SignBoth(p: Primitives, s: AuthState, refreshToken: Result<string, ApiError>, user: User,
                          refreshId: Id, jti: string, now: Instant): Result<LoginOutput, ApiError>
  {
    if refreshToken.Err? then Err(refreshToken.error)
    else
      match Sign(p, s, AccessPayload(AccessClaimsFor(p, s, user, refreshId, jti, now)))
      case Err(error) => Err(error)
      case Ok(token) => Ok(LoginOutput(token, refreshToken.value, user))
  }

  ghost function Login(p: Primitives, s: AuthState, email: string, password: string,
                       refreshId: Id, jti: string, now: Instant): (AuthState, Result<LoginOutput, ApiError>)
  {
    match UserByEmail(s.users, email)
    case None => (s, Err(Unauthorized))
    case Some(id) =>
      var row := s.users[id];
      if row.status != Active || row.passwordHash == "" || !p.verifyPassword(password, row.passwordHash)
      then (s, Err(Unauthorized))
      else OpenSession(p, s, Person(s, id), refreshId, jti, now)
  }

  ghost function RevokeRefresh(s: AuthState, id: Id, now: Instant): AuthState
    requires id in s.refresh
  {
    s.(refresh := s.refresh[id := s.refresh[id].(revokedAt := Some(now))])
  }

  /** The new row and the end of the old one are one transaction; signing the access token is not in it. */
  ghost function RefreshSession(p: Primitives, s: AuthState, token: string, refreshId: Id, jti: string, now: Instant)
    : (AuthState, Result<LoginOutput, ApiError>)
  {
    match ActiveRefresh(p, s, token, now)
    case Err(error) => (s, Err(error))
    case Ok(id) =>
      var userId := s.refresh[id].userId;
      if userId !in s.users || s.users[userId].status != Active then (s, Err(Unauthorized))
      else
        var (issued, refreshToken) := IssueRefresh(p, s, userId, refreshId, now);
        if refreshToken.Err? then (s, Err(refreshToken.error))
        else
          var s1 := Happened(RevokeRefresh(issued, id, now), Rotated(id, refreshId));
          (s1, SignBoth(p, s1, refreshToken, Person(s, userId), refreshId, jti, now))
  }

  ghost function Logout(p: Primitives, s: AuthState, token: string, now: Instant): (AuthState, Result<(), ApiError>) {
    match ActiveRefresh(p, s, token, now)
    case Err(error) => (s, Err(error))
    case Ok(id) => (RevokeRefresh(s, id, now), Ok(()))
  }

  // ---------- invitations ----------

  function InviteLink(appBaseUrl: string, token: string): string {
    Paths.TrimEnd(appBaseUrl) + "/accept-invite?token=" + token
  }

  ghost function InviteUser(p: Primitives, s: AuthState, input: InviteInput, rawToken: string,
                            userId: Id, inviteId: Id, roleId: Id, now: Instant)
    : (AuthState, Result<InviteOutput, ApiError>)
  {
    if input.role == SuperAdmin then (s, Err(BadRequest("super_admin is a global bootstrap-only role")))
    else if !CanAdministerWorkspace(input.inviter, input.workspaceId) then (s, Err(Forbidden))
    else if UserByEmail(s.users, input.email).Some? then (s, Err(BadRequest("user already exists")))
    else if input.workspaceId !in s.tables.workspaces then (s, Err(NotFound("workspace")))
    else if InviteByHash(s.invites, p.tokenHash(rawToken)).Some? then (s, Err(DATABASE_ERROR))
    else
      var expiresAt := After(now, s.config.inviteTtlSeconds);
      var (s1, user) := WithInvited(s, input, p.tokenHash(rawToken), expiresAt, userId, inviteId, roleId, now);
      (s1, Ok(InviteOutput(user, InviteLink(s.config.appBaseUrl, rawToken), expiresAt)))
  }

  /** The user, the invitation and the role that are inserted together, and the user as answered. */
  ghost function WithInvited(s: AuthState, input: InviteInput, tokenHash: string, expiresAt: Instant,
                             userId: Id, inviteId: Id, roleId: Id, now: Instant): (AuthState, User)
  {
    var user := UserRow(input.email, input.name, Viewer, Invited, "");
    (s.(users := s.users[userId := user],
        invites := s.invites[inviteId := InviteRow(userId, tokenHash, expiresAt, None, now)],
        tables := Tenancy.GrantRole(s.tables, RoleRow(roleId, userId, input.workspaceId, input.role))),
     UserFrom(userId, user, []).(workspaceRoles := [WorkspaceRole(input.workspaceId, input.role)]))
  }

  /** The first update of an acceptance: the user gets a password and becomes active. */
  ghost function SetInvitedPassword(p: Primitives, s: AuthState, token: string, password: string, salt: string,
                                    now: Instant)
    : (r: (AuthState, Result<Id, ApiError>))
    ensures r.1.Ok? ==> r.1.value in s.invites && s.invites[r.1.value].userId in s.users && r.0.invites == s.invites
    ensures r.0.refresh == s.refresh && r.0.users.Keys == s.users.Keys
  {
    match InviteByHash(s.invites, p.tokenHash(token))
    case None => (s, Err(Unauthorized))
    case Some(inviteId) =>
      var invite := s.invites[inviteId];
      if invite.acceptedAt.Some? || invite.expiresAt < now || invite.userId !in s.users then (s, Err(Unauthorized))
      else
        var row := s.users[invite.userId];
        if row.status == Active then (s, Err(BadRequest("invite has already been accepted")))
        else if row.status == Disabled then (s, Err(Unauthorized))
        else
          match p.hashPassword(password, salt)
          case None => (s, Err(Internal("failed to hash password")))
          case Some(hash) =>
            (s.(users := s.users[invite.userId := row.(status := Active, passwordHash := hash)]), Ok(inviteId))
  }

  /** The second update and the session that follows it. */
  ghost function FinishAcceptance(p: Primitives, s: AuthState, inviteId: Id, refreshId: Id, jti: string, now: Instant)
    : (AuthState, Result<LoginOutput, ApiError>)
    requires inviteId in s.invites
  {
    var userId := s.invites[inviteId].userId;
    var s1 := s.(invites := s.invites[inviteId := s.invites[inviteId].(acceptedAt := Some(now))]);
    if userId !in s.users then (s1, Err(Unauthorized))
    else OpenSession(p, s1, Person(s1, userId), refreshId, jti, now)
  }

  ghost function AcceptInvite(p: Primitives, s: AuthState, token: string, password: string, salt: string,
                              refreshId: Id, jti: string, now: Instant): (AuthState, Result<LoginOutput, ApiError>)
  {
    var (s1, begun) := SetInvitedPassword(p, s, token, password, salt, now);
    match begun
    case Err(error) => (s1, Err(error))
    case Ok(inviteId) => FinishAcceptance(p, s1, inviteId, refreshId, jti, now)
  }

  // ---------- bearer credentials ----------

  ghost function AuthenticateBearer(p: Primitives, s: AuthState, token: string, now: Instant): (AuthState,
                                    Result<User, ApiError>)
  {
    match VerifyAccess(p, s, token, now)
    case Ok(claims) =>
      var userId := p.parseId(claims.sub);
      if userId.None? || userId.value !in s.users || s.users[userId.value].status != Active then (s, Err(Unauthorized))
      else (s, Ok(Person(s, userId.value)))
    case Err(error) =>
      if error == Unauthorized then AuthenticateApiToken(p, s, token, now) else (s, Err(error))
  }

  ghost function AuthenticateApiToken(p: Primitives, s: AuthState, token: string, now: Instant): (AuthState,
                                      Result<User, ApiError>)
  {
    if !(API_TOKEN_PREFIX <= token) then (s, Err(Unauthorized))
    else
      match ApiTokenByHash(s.apiTokens, p.tokenHash(token))
      case None => (s, Err(Unauthorized))
      case Some(id) =>
        var row := s.apiTokens[id];
        if row.revokedAt.Some? || row.userId !in s.users || s.users[row.userId].status != Active
        then (s, Err(Unauthorized))
        else (s.(apiTokens := s.apiTokens[id := row.(lastUsedAt := Some(now))]), Ok(Person(s, row.userId)))
  }

  function TokenPrefix(token: string): string {
    if |token| <= 12 then token else token[..12]
  }

  ghost function CreateApiToken(p: Primitives, s: AuthState, user: User, name: string, random: string, id: Id,
                                now: Instant)
    : (AuthState, Result<ApiTokenOutput, ApiError>)
  {
    var rawToken := API_TOKEN_PREFIX + random;
    var row := ApiTokenRow(user.id, name, p.tokenHash(rawToken), TokenPrefix(rawToken), now, None, None);
    if ApiTokenByHash(s.apiTokens, row.tokenHash).Some? then (s, Err(DATABASE_ERROR))
    else (s.(apiTokens := s.apiTokens[id := row]), Ok(ApiTokenOutput(rawToken, row)))
  }

  ghost function RevokeApiToken(s: AuthState, user: User, tokenId: Id, now: Instant): (AuthState, Result<ApiTokenRow,
                                ApiError>)
  {
    if tokenId !in s.apiTokens || s.apiTokens[tokenId].userId != user.id then (s, Err(NotFound("api token")))
    else
      var row := s.apiTokens[tokenId];
      var revoked := row.(revokedAt := Some(row.revokedAt.GetOr(now)));
      (s.(apiTokens := s.apiTokens[tokenId := revoked]), Ok(revoked))
  }

  // ---------- administration ----------

  ghost function ActiveAdmins(users: map<Id, UserRow>): set<Id> {
    set id | id in users && users[id].role == SuperAdmin && users[id].status == Active
  }

  ghost function WithStatus(s: AuthState, id: Id, status: UserStatus): AuthState
    requires id in s.users
  {
    s.(users := s.users[id := s.users[id].(status := status)])
  }

  ghost function WithRole(s: AuthState, id: Id, role: Role): AuthState
    requires id in s.users
  {
    s.(users := s.users[id := s.users[id].(role := role)])
  }

  ghost function DisableUser(s: AuthState, id: Id): (AuthState, Result<User, ApiError>) {
    if id !in s.users then (s, Err(Unauthorized))
    else if s.users[id].status == Disabled then (s, Ok(Person(s, id)))
    else if s.users[id].role == SuperAdmin && |ActiveAdmins(s.users)| <= 1
    then (s, Err(BadRequest("cannot disable the last active platform admin")))
    else (WithStatus(s, id, Disabled), Ok(Person(WithStatus(s, id, Disabled), id)))
  }

  ghost function ReactivateUser(s: AuthState, id: Id): (AuthState, Result<User, ApiError>) {
    if id !in s.users then (s, Err(Unauthorized))
    else if s.users[id].status != Disabled then (s, Err(BadRequest("only disabled users can be reactivated")))
    else if s.users[id].passwordHash == ""
    then (s, Err(BadRequest("invited users must accept their invite before reactivation")))
    else (WithStatus(s, id, Active), Ok(Person(WithStatus(s, id, Active), id)))
  }

  ghost function ChangeUserRole(s: AuthState, id: Id, role: Role): (AuthState, Result<User, ApiError>) {
    if id !in s.users then (s, Err(Unauthorized))
    else if s.users[id].role == SuperAdmin && role != SuperAdmin && s.users[id].status == Active
            && |ActiveAdmins(s.users)| <= 1
    then (s, Err(BadRequest("cannot remove the last active platform admin")))
    else (WithRole(s, id, role), Ok(Person(WithRole(s, id, role), id)))
  }

  /** Start-up with a configuration: the key table is synchronized, and an empty database gets its admin. */
  ghost function Bootstrap(p: Primitives, s: AuthState, config: Config, keyId: Id, adminId: Id, salt: string,
                           now: Instant)
    : (AuthState, Result<(), ApiError>)
  {
    var s0 := s.(config := config);
    match p.readPublicKey(config.publicKeyPem)
    case None => (s0, Err(Internal("invalid JWT public key PEM")))
    case Some(material) =>
      FirstAdmin(p, s0.(keys := SyncKeys(s.keys, material, keyId, now)), adminId, salt)
  }

  /** An empty user table gets its administrator. */
  ghost function FirstAdmin(p: Primitives, s: AuthState, adminId: Id, salt: string): (AuthState, Result<(), ApiError>) {
    if s.users != map[] then (s, Ok(()))
    else
      match p.hashPassword(s.config.adminPassword, salt)
      case None => (s, Err(Internal("failed to hash password")))
      case Some(hash) =>
        var admin := UserRow(s.config.adminEmail, s.config.adminName, SuperAdmin, Active, hash);
        (s.(users := map[adminId := admin]), Ok(()))
  }
}
