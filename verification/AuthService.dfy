/** The authentication service over its tables, updated in place; each call does what its step says. */
module AuthService {
  import opened Wrappers
  import opened Models
  import opened AuthModel
  import opened AuthSteps
  import opened AuthRuns
  import TenantStore

  lemma RunGoesOn(p: Primitives, states: seq<AuthState>, actions: seq<Action>, a: Action, t: AuthState)
    requires IsRun(p, states, actions) && Enabled(p, states[|states| - 1], a) && t == Next(p, states[|states| - 1], a)
    ensures IsRun(p, states + [t], actions + [a])
  {
    hide Enabled, Next, Started;
  }

  lemma RefreshIsStep(p: Primitives, s: AuthState, token: string, refreshId: Id, jti: string, now: Instant)
    requires refreshId !in s.refresh
    ensures Enabled(p, s, DoRefresh(token, refreshId, jti, now))
    ensures Next(p, s, DoRefresh(token, refreshId, jti, now))
         == AuthSteps.RefreshSession(p, s, token, refreshId, jti, now).0
  {
  }

  lemma InviteIsStep(p: Primitives, s: AuthState, input: InviteInput, rawToken: string,
                     userId: Id, inviteId: Id, roleId: Id, now: Instant)
    requires userId !in s.users && inviteId !in s.invites
    ensures var a := DoInvite(input, rawToken, userId, inviteId, roleId, now);
      && Enabled(p, s, a)
      && Next(p, s, a) == AuthSteps.InviteUser(p, s, input, rawToken, userId, inviteId, roleId, now).0
  {
  }

  lemma LastOfRun(p: Primitives, states: seq<AuthState>, actions: seq<Action>)
    requires IsRun(p, states, actions)
    ensures |states| == |actions| + 1
  {
  }

  class Service {
    const p: Primitives
    const store: TenantStore.Store
    var config: Config
    var users: map<Id, UserRow>
    var invites: map<Id, InviteRow>
    var apiTokens: map<Id, ApiTokenRow>
    var refresh: map<Id, RefreshRow>
    var keys: seq<KeyRow>
    ghost var log: seq<Event>
    ghost var states: seq<AuthState>
    ghost var actions: seq<Action>

    ghost function View(): AuthState
      reads this, store
    {
      AuthState(users, invites, apiTokens, refresh, keys, store.View(), config, log)
    }

    /** What the database's unique constraints promise. */
    ghost predicate Valid()
      reads this
    {
      UniqueColumns(users, invites, apiTokens)
    }

    /** The tables are the last state of a run, the one the calls so far have made. */
    ghost predicate Reachable()
      reads this, store
    {
      IsRun(p, states, actions) && states[|states| - 1] == View()
    }

    constructor (p: Primitives, store: TenantStore.Store, config: Config)
      ensures Valid() && this.p == p && this.store == store
      ensures View() == AuthState(map[], map[], map[], map[], [], store.View(), config, []) && states == []
    {
      this.p, this.store, this.config := p, store, config;
      users, invites, apiTokens, refresh, keys := map[], map[], map[], map[], [];
      log, states, actions := [], [], [];
    }

    /**
      * The call `a` has just been made in the state `before`. The methods below record themselves;
      * a caller of the shared store's methods records a `DoTenant` with the store's vault.
      */
    ghost method Record(before: AuthState, a: Action)
      requires Enabled(p, before, a) ==> View() == Next(p, before, a)
      modifies this`states, this`actions
      ensures IsRun(p, old(states), old(actions)) && old(states)[|old(states)| - 1] == before && Enabled(p, before, a)
        ==> Reachable()
    {
      hide IsRun, Enabled, Next;
      if IsRun(p, states, actions) {
        LastOfRun(p, states, actions);
        if states[|states| - 1] == before && Enabled(p, before, a) {
          RunGoesOn(p, states, actions, a, View());
        }
      }
      states, actions := states + [View()], actions + [a];
    }

    // ---------- lookups ----------

    method FindUserByEmail(email: string) returns (r: Option<Id>)
      requires Valid()
      ensures r == UserByEmail(users, email)
    {
      if id :| id in users && users[id].email == email {
        return Some(id);
      }
      return None;
    }

    method FindInvite(hash: string) returns (r: Option<Id>)
      requires Valid()
      ensures r == InviteByHash(invites, hash)
    {
      if id :| id in invites && invites[id].tokenHash == hash {
        return Some(id);
      }
      return None;
    }

    method FindApiToken(hash: string) returns (r: Option<Id>)
      requires Valid()
      ensures r == ApiTokenByHash(apiTokens, hash)
    {
      if id :| id in apiTokens && apiTokens[id].tokenHash == hash {
        return Some(id);
      }
      return None;
    }

    method ActiveSuperAdminCount() returns (n: nat)
      ensures n == |ActiveAdmins(users)|
    {
      var admins := set id | id in users && users[id].role == SuperAdmin && users[id].status == Active;
      assert admins == ActiveAdmins(users);
      n := |admins|;
    }

    // ---------- tokens ----------

    method SignToken(payload: Payload) returns (r: Result<string, ApiError>)
      ensures r == Sign(p, View(), payload)
    {
      if p.publicKeyOf(config.privateKeyPem).None? {
        return Err(Internal("invalid JWT private key"));
      }
      var active := ActiveKey(keys);
      if active.None? {
        return Err(Internal("active JWT public key is missing"));
      }
      if !HasJwkMetadata(active.value) {
        return Err(Internal("active JWT public key has invalid JWK metadata"));
      }
      r := Ok(p.encode(Header(Some(p.showId(active.value.id))), payload, config.privateKeyPem));
    }

    method DecodeToken(token: string) returns (r: Result<Payload, ApiError>)
      ensures r == OpenToken(p, View(), token)
    {
      var header := p.decodeHeader(token);
      if header.None? || header.value.kid.None? {
        return Err(Unauthorized);
      }
      var kid := p.parseId(header.value.kid.value);
      if kid.None? {
        return Err(Unauthorized);
      }
      var key := KeyById(keys, kid.value);
      if key.None? || !HasJwkMetadata(key.value) {
        return Err(Unauthorized);
      }
      if !p.usable(key.value.material) {
        return Err(Internal("invalid JWT public key components"));
      }
      var payload := p.decode(token, key.value.material);
      r := if payload.Some? then Ok(payload.value) else Err(Unauthorized);
    }

    method VerifyAccessToken(token: string, now: Instant) returns (r: Result<Claims, ApiError>)
      ensures r == VerifyAccess(p, View(), token, now)
    {
      var payload := DecodeToken(token);
      if payload.Err? {
        return Err(payload.error);
      }
      var claims := ReadAccess(payload.value);
      if claims.None? || !Current(config, claims.value.iss, claims.value.aud, claims.value.exp, now) {
        return Err(Unauthorized);
      }
      r := Ok(claims.value);
    }

    method ActiveRefreshRecord(token: string, now: Instant) returns (r: Result<Id, ApiError>)
      ensures r == ActiveRefresh(p, View(), token, now)
    {
      var payload := DecodeToken(token);
      if payload.Err? {
        return Err(payload.error);
      }
      var claims := ReadRefresh(payload.value);
      if claims.None? || !Current(config, claims.value.iss, claims.value.aud, claims.value.exp, now)
         || claims.value.typ != "refresh" {
        return Err(Unauthorized);
      }
      var tokenId, userId := p.parseId(claims.value.jti), p.parseId(claims.value.sub);
      if tokenId.None? || userId.None? || tokenId.value !in refresh {
        return Err(Unauthorized);
      }
      var row := refresh[tokenId.value];
      if row.userId != userId.value || row.revokedAt.Some? || row.expiresAt <= now {
        return Err(Unauthorized);
      }
      r := Ok(tokenId.value);
    }

    method SignAccessToken(user: User, refreshId: Id, jti: string, now: Instant) returns (r: Result<string, ApiError>)
      ensures r == Sign(p, View(), AccessPayload(AccessClaimsFor(p, View(), user, refreshId, jti, now)))
    {
      var claims := Claims(jti, p.showId(refreshId), p.showId(user.id), user.email, RoleName(user.role),
                           config.issuer, config.audience, Seconds(now), Seconds(now) + config.accessTtlSeconds);
      r := SignToken(AccessPayload(claims));
    }

    /** Inserts the row, then signs; the caller decides what a failure to sign undoes. */
    method IssueRefreshToken(userId: Id, refreshId: Id, now: Instant) returns (r: Result<string, ApiError>)
      modifies this`refresh
      ensures (View(), r) == IssueRefresh(p, old(View()), userId, refreshId, now)
    {
      var expiresAt := After(now, config.refreshTtlSeconds);
      refresh := refresh[refreshId := RefreshRow(userId, now, expiresAt, None)];
      r := SignToken(RefreshPayload(RefreshClaims(p.showId(refreshId), p.showId(userId), "refresh", config.issuer,
                                                  config.audience, Seconds(now), Seconds(expiresAt))));
    }

    /** Both tokens of a session, or the first failure. */
    method SignSession(refreshToken: Result<string, ApiError>, user: User, refreshId: Id, jti: string, now: Instant)
      returns (r: Result<LoginOutput, ApiError>)
      ensures r == SignBoth(p, View(), refreshToken, user, refreshId, jti, now)
    {
      if refreshToken.Err? {
        return Err(refreshToken.error);
      }
      var token := SignAccessToken(user, refreshId, jti, now);
      if token.Err? {
        return Err(token.error);
      }
      r := Ok(LoginOutput(token.value, refreshToken.value, user));
    }

    method StartSession(user: User, refreshId: Id, jti: string, now: Instant) returns (r: Result<LoginOutput, ApiError>)
      modifies this`refresh, this`log
      ensures (View(), r) == OpenSession(p, old(View()), user, refreshId, jti, now)
    {
      var refreshToken := IssueRefreshToken(user.id, refreshId, now);
      log := log + [Opened(refreshId, user.id)];
      r := SignSession(refreshToken, user, refreshId, jti, now);
    }

    // ---------- sessions ----------

    method Login(email: string, password: string, refreshId: Id, jti: string, now: Instant)
      returns (r: Result<LoginOutput, ApiError>)
      requires Valid()
      modifies this`refresh, this`log, this`states, this`actions
      ensures Valid()
      ensures (View(), r) == AuthSteps.Login(p, old(View()), email, password, refreshId, jti, now)
      ensures old(Reachable()) && refreshId !in old(refresh) ==> Reachable()
    {
      hide IsRun;
      ghost var before := View();
      var found := FindUserByEmail(email);
      if found.None? {
        return Err(Unauthorized);
      }
      var row := users[found.value];
      if row.status != Active || row.passwordHash == "" {
        return Err(Unauthorized);
      }
      if !p.verifyPassword(password, row.passwordHash) {
        return Err(Unauthorized);
      }
      r := StartSession(UserFrom(found.value, row, store.roles), refreshId, jti, now);
      Record(before, DoLogin(email, password, refreshId, jti, now));
    }

    method RefreshSession(token: string, refreshId: Id, jti: string, now: Instant) returns (r: Result<LoginOutput,
                          ApiError>)
      requires Valid() && refreshId !in refresh
      modifies this`refresh, this`log, this`states, this`actions
      ensures Valid()
      ensures (View(), r) == AuthSteps.RefreshSession(p, old(View()), token, refreshId, jti, now)
      ensures old(Reachable()) ==> Reachable()
    {
      hide IsRun, Next, Enabled, Sign, SignBoth, ActiveRefresh, RefreshPayload, UniqueColumns, RolesOf;
      ghost var before := View();
      var record := ActiveRefreshRecord(token, now);
      if record.Err? {
        return Err(record.error);
      }
      var id := record.value;
      var userId := refresh[id].userId;
      if userId !in users || users[userId].status != Active {
        return Err(Unauthorized);
      }
      var user := UserFrom(userId, users[userId], store.roles);
      var committed := refresh;
      var refreshToken := IssueRefreshToken(userId, refreshId, now);
      if refreshToken.Err? {
        refresh := committed;  // the transaction is not committed
        return Err(refreshToken.error);
      }
      refresh := refresh[id := refresh[id].(revokedAt := Some(now))];
      log := log + [Rotated(id, refreshId)];
      r := SignSession(refreshToken, user, refreshId, jti, now);
      RefreshIsStep(p, before, token, refreshId, jti, now);
      Record(before, DoRefresh(token, refreshId, jti, now));
    }

    method Logout(token: string, now: Instant) returns (r: Result<(), ApiError>)
      modifies this`refresh, this`states, this`actions
      ensures (View(), r) == AuthSteps.Logout(p, old(View()), token, now)
      ensures old(Reachable()) ==> Reachable()
    {
      hide IsRun;
      ghost var before := View();
      var record := ActiveRefreshRecord(token, now);
      if record.Err? {
        return Err(record.error);
      }
      refresh := refresh[record.value := refresh[record.value].(revokedAt := Some(now))];
      Record(before, DoLogout(token, now));
      r := Ok(());
    }

    // ---------- invitations ----------

    method InviteUser(input: InviteInput, rawToken: string, userId: Id, inviteId: Id, roleId: Id, now: Instant)
      returns (r: Result<InviteOutput, ApiError>)
      requires Valid() && userId !in users && inviteId !in invites
      modifies this`users, this`invites, store, this`states, this`actions
      ensures Valid()
      ensures (View(), r) == AuthSteps.InviteUser(p, old(View()), input, rawToken, userId, inviteId, roleId, now)
      ensures old(Reachable()) ==> Reachable()
    {
      hide IsRun, Next, Enabled, RolesOf, CanAdministerWorkspace, UniqueColumns, WithInvited;
      ghost var before := View();
      if input.role == SuperAdmin {
        return Err(BadRequest("super_admin is a global bootstrap-only role"));
      }
      if !CanAdministerWorkspace(input.inviter, input.workspaceId) {
        return Err(Forbidden);
      }
      var existing := FindUserByEmail(input.email);
      if existing.Some? {
        return Err(BadRequest("user already exists"));
      }
      if input.workspaceId !in store.workspaces {
        return Err(NotFound("workspace"));
      }
      var expiresAt := After(now, config.inviteTtlSeconds);
      var tokenHash := p.tokenHash(rawToken);
      var taken := FindInvite(tokenHash);
      if taken.Some? {
        return Err(DATABASE_ERROR);  // the unique column refuses the row and the transaction ends
      }
      var user := InsertInvited(input, tokenHash, expiresAt, userId, inviteId, roleId, now);
      InviteIsStep(p, before, input, rawToken, userId, inviteId, roleId, now);
      Record(before, DoInvite(input, rawToken, userId, inviteId, roleId, now));
      r := Ok(InviteOutput(user, InviteLink(config.appBaseUrl, rawToken), expiresAt));
    }

    /** The three rows of an invitation, in one transaction. */
    method InsertInvited(input: InviteInput, tokenHash: string, expiresAt: Instant,
                         userId: Id, inviteId: Id, roleId: Id, now: Instant) returns (user: User)
      requires Valid() && UserByEmail(users, input.email).None? && InviteByHash(invites, tokenHash).None?
      modifies this`users, this`invites, store
      ensures Valid()
      ensures (View(), user) == WithInvited(old(View()), input, tokenHash, expiresAt, userId, inviteId, roleId, now)
    {
      var row := UserRow(input.email, input.name, Viewer, Invited, "");
      users := users[userId := row];
      invites := invites[inviteId := InviteRow(userId, tokenHash, expiresAt, None, now)];
      store.GrantRole(RoleRow(roleId, userId, input.workspaceId, input.role));
      user := UserFrom(userId, row, []).(workspaceRoles := [WorkspaceRole(input.workspaceId, input.role)]);
    }

    /** The user's update; the call may stop behind it. */
    method BeginAcceptance(token: string, password: string, salt: string, now: Instant) returns (r: Result<Id,
                           ApiError>)
      requires Valid()
      modifies this`users
      ensures Valid()
      ensures (View(), r) == SetInvitedPassword(p, old(View()), token, password, salt, now)
    {
      var found := FindInvite(p.tokenHash(token));
      if found.None? {
        return Err(Unauthorized);
      }
      var invite := invites[found.value];
      if invite.acceptedAt.Some? || invite.expiresAt < now || invite.userId !in users {
        return Err(Unauthorized);
      }
      var row := users[invite.userId];
      if row.status == Active {
        return Err(BadRequest("invite has already been accepted"));
      }
      if row.status == Disabled {
        return Err(Unauthorized);
      }
      var hash := p.hashPassword(password, salt);
      if hash.None? {
        return Err(Internal("failed to hash password"));
      }
      users := users[invite.userId := row.(status := Active, passwordHash := hash.value)];
      r := Ok(found.value);
    }

    method CompleteAcceptance(inviteId: Id, refreshId: Id, jti: string, now: Instant) returns (r: Result<LoginOutput,
                              ApiError>)
      requires Valid() && inviteId in invites
      modifies this`invites, this`refresh, this`log
      ensures Valid()
      ensures (View(), r) == FinishAcceptance(p, old(View()), inviteId, refreshId, jti, now)
    {
      var userId := invites[inviteId].userId;
      invites := invites[inviteId := invites[inviteId].(acceptedAt := Some(now))];
      if userId !in users {
        return Err(Unauthorized);
      }
      r := StartSession(UserFrom(userId, users[userId], store.roles), refreshId, jti, now);
    }

    method AcceptInvite(token: string, password: string, salt: string, refreshId: Id, jti: string, now: Instant)
      returns (r: Result<LoginOutput, ApiError>)
      requires Valid()
      modifies this`users, this`invites, this`refresh, this`log, this`states, this`actions
      ensures Valid()
      ensures (View(), r) == AuthSteps.AcceptInvite(p, old(View()), token, password, salt, refreshId, jti, now)
      ensures old(Reachable()) && refreshId !in old(refresh) ==> Reachable()
    {
      hide IsRun, SetInvitedPassword, FinishAcceptance, UniqueColumns;
      ghost var before := View();
      var begun := BeginAcceptance(token, password, salt, now);
      if begun.Err? {
        r := Err(begun.error);
      } else {
        r := CompleteAcceptance(begun.value, refreshId, jti, now);
      }
      Record(before, DoAccept(token, password, salt, refreshId, jti, now));
    }

    /** The process ends behind the first update: nobody is answered. */
    method AcceptInviteInterrupted(token: string, password: string, salt: string, now: Instant)
      requires Valid()
      modifies this`users, this`states, this`actions
      ensures Valid()
      ensures View() == SetInvitedPassword(p, old(View()), token, password, salt, now).0
      ensures old(Reachable()) ==> Reachable()
    {
      hide IsRun;
      ghost var before := View();
      var _ := BeginAcceptance(token, password, salt, now);
      Record(before, DoAcceptInterrupted(token, password, salt, now));
    }

    // ---------- bearer credentials ----------

    method AuthenticateBearer(token: string, now: Instant) returns (r: Result<User, ApiError>)
      requires Valid()
      modifies this`apiTokens, this`states, this`actions
      ensures Valid()
      ensures (View(), r) == AuthSteps.AuthenticateBearer(p, old(View()), token, now)
      ensures old(Reachable()) ==> Reachable()
    {
      hide IsRun;
      ghost var before := View();
      var claims := VerifyAccessToken(token, now);
      if claims.Ok? {
        var userId := p.parseId(claims.value.sub);
        if userId.None? || userId.value !in users || users[userId.value].status != Active {
          return Err(Unauthorized);
        }
        return Ok(UserFrom(userId.value, users[userId.value], store.roles));
      }
      if claims.error != Unauthorized {
        return Err(claims.error);
      }
      r := AuthenticateApiToken(token, now);
      Record(before, DoAuthenticate(token, now));
    }

    method AuthenticateApiToken(token: string, now: Instant) returns (r: Result<User, ApiError>)
      requires Valid()
      modifies this`apiTokens
      ensures Valid()
      ensures (View(), r) == AuthSteps.AuthenticateApiToken(p, old(View()), token, now)
    {
      if !(API_TOKEN_PREFIX <= token) {
        return Err(Unauthorized);
      }
      var found := FindApiToken(p.tokenHash(token));
      if found.None? {
        return Err(Unauthorized);
      }
      var row := apiTokens[found.value];
      if row.revokedAt.Some? {
        return Err(Unauthorized);
      }
      if row.userId !in users || users[row.userId].status != Active {
        return Err(Unauthorized);
      }
      apiTokens := apiTokens[found.value := row.(lastUsedAt := Some(now))];
      r := Ok(UserFrom(row.userId, users[row.userId], store.roles));
    }

    method CreateApiToken(user: User, name: string, random: string, id: Id, now: Instant)
      returns (r: Result<ApiTokenOutput, ApiError>)
      requires Valid() && id !in apiTokens
      modifies this`apiTokens, this`states, this`actions
      ensures Valid()
      ensures (View(), r) == AuthSteps.CreateApiToken(p, old(View()), user, name, random, id, now)
      ensures old(Reachable()) && IsTokenText(random) ==> Reachable()
    {
      hide IsRun;
      ghost var before := View();
      var rawToken := API_TOKEN_PREFIX + random;
      var tokenHash := p.tokenHash(rawToken);
      var taken := FindApiToken(tokenHash);
      if taken.Some? {
        return Err(DATABASE_ERROR);
      }
      var row := ApiTokenRow(user.id, name, tokenHash, TokenPrefix(rawToken), now, None, None);
      apiTokens := apiTokens[id := row];
      Record(before, DoCreateApiToken(user, name, random, id, now));
      r := Ok(ApiTokenOutput(rawToken, row));
    }

    method RevokeApiToken(user: User, tokenId: Id, now: Instant) returns (r: Result<ApiTokenRow, ApiError>)
      requires Valid()
      modifies this`apiTokens, this`states, this`actions
      ensures Valid()
      ensures (View(), r) == AuthSteps.RevokeApiToken(old(View()), user, tokenId, now)
      ensures old(Reachable()) ==> Reachable()
    {
      hide IsRun;
      ghost var before := View();
      if tokenId !in apiTokens || apiTokens[tokenId].userId != user.id {
        return Err(NotFound("api token"));
      }
      var revokedAt := apiTokens[tokenId].revokedAt.GetOr(now);
      apiTokens := apiTokens[tokenId := apiTokens[tokenId].(revokedAt := Some(revokedAt))];
      Record(before, DoRevokeApiToken(user, tokenId, now));
      r := Ok(apiTokens[tokenId]);
    }

    // ---------- administration ----------

    method UpdateUserStatus(id: Id, status: UserStatus) returns (user: User)
      requires Valid() && id in users
      modifies this`users
      ensures Valid()
      ensures View() == WithStatus(old(View()), id, status) && user == Person(View(), id)
    {
      users := users[id := users[id].(status := status)];
      user := UserFrom(id, users[id], store.roles);
    }

    method DisableUser(id: Id) returns (r: Result<User, ApiError>)
      requires Valid()
      modifies this`users, this`states, this`actions
      ensures Valid()
      ensures (View(), r) == AuthSteps.DisableUser(old(View()), id)
      ensures old(Reachable()) ==> Reachable()
    {
      hide IsRun, ActiveAdmins, UserFrom, UniqueColumns, WithStatus;
      ghost var before := View();
      if id !in users {
        return Err(Unauthorized);
      }
      if users[id].status == Disabled {
        return Ok(UserFrom(id, users[id], store.roles));
      }
      if users[id].role == SuperAdmin {
        var admins := ActiveSuperAdminCount();
        if admins <= 1 {
          return Err(BadRequest("cannot disable the last active platform admin"));
        }
      }
      var user := UpdateUserStatus(id, Disabled);
      Record(before, DoDisable(id));
      r := Ok(user);
    }

    method ReactivateUser(id: Id) returns (r: Result<User, ApiError>)
      requires Valid()
      modifies this`users, this`states, this`actions
      ensures Valid()
      ensures (View(), r) == AuthSteps.ReactivateUser(old(View()), id)
      ensures old(Reachable()) ==> Reachable()
    {
      hide IsRun, UserFrom, UniqueColumns, WithStatus;
      ghost var before := View();
      if id !in users {
        return Err(Unauthorized);
      }
      if users[id].status != Disabled {
        return Err(BadRequest("only disabled users can be reactivated"));
      }
      if users[id].passwordHash == "" {
        return Err(BadRequest("invited users must accept their invite before reactivation"));
      }
      var user := UpdateUserStatus(id, Active);
      Record(before, DoReactivate(id));
      r := Ok(user);
    }

    method ChangeUserRole(id: Id, role: Role) returns (r: Result<User, ApiError>)
      requires Valid()
      modifies this`users, this`states, this`actions
      ensures Valid()
      ensures (View(), r) == AuthSteps.ChangeUserRole(old(View()), id, role)
      ensures old(Reachable()) ==> Reachable()
    {
      hide IsRun, UniqueColumns, AuthSteps.ChangeUserRole;
      ghost var before := View();
      r := GuardedRoleChange(id, role);
      Record(before, DoChangeRole(id, role));
    }

    method GuardedRoleChange(id: Id, role: Role) returns (r: Result<User, ApiError>)
      requires Valid()
      modifies this`users
      ensures Valid()
      ensures (View(), r) == AuthSteps.ChangeUserRole(old(View()), id, role)
    {
      if id !in users {
        return Err(Unauthorized);
      }
      if users[id].role == SuperAdmin && role != SuperAdmin && users[id].status == Active {
        var admins := ActiveSuperAdminCount();
        if admins <= 1 {
          return Err(BadRequest("cannot remove the last active platform admin"));
        }
      }
      users := users[id := users[id].(role := role)];
      r := Ok(UserFrom(id, users[id], store.roles));
    }

    // ---------- start-up ----------

    /** The configured key becomes the one active row: its own if it has one, a new one otherwise. */
    method SyncActiveJwtPublicKey(keyId: Id, now: Instant) returns (ok: bool)
      modifies this`keys
      ensures ok == p.readPublicKey(config.publicKeyPem).Some?
      ensures keys == if ok then SyncKeys(old(keys), p.readPublicKey(config.publicKeyPem).value, keyId, now)
                      else old(keys)
    {
      var material := p.readPublicKey(config.publicKeyPem);
      if material.None? {
        return false;
      }
      var found := FindKey(keys, material.value);
      keys := Deactivated(keys);
      if found.Some? {
        var row := keys[found.value];
        keys := keys[found.value := KeyRow(row.id, "RSA", "sig", "RS256", material.value, true, row.createdAt)];
      } else {
        keys := keys + [KeyRow(keyId, "RSA", "sig", "RS256", material.value, true, now)];
      }
      ok := true;
    }

    method BootstrapAdmin(newConfig: Config, keyId: Id, adminId: Id, salt: string, now: Instant)
      returns (r: Result<(), ApiError>)
      requires Valid()
      modifies this`config, this`keys, this`users, this`states, this`actions
      ensures Valid()
      ensures (View(), r) == Bootstrap(p, old(View()), newConfig, keyId, adminId, salt, now)
      ensures old(states) == [] && old(View()) == Empty(old(config)) && ValidKeys(p, newConfig) && r.Ok? ==> Reachable()
      ensures
        old(Reachable()) && Enabled(p, old(View()), DoBootstrap(newConfig, keyId, adminId, salt, now)) ==> Reachable()
    {
      hide IsRun, SyncKeys, UniqueColumns, ValidKeys, FirstAdmin;
      ghost var before := View();
      config := newConfig;
      var synced := SyncActiveJwtPublicKey(keyId, now);
      if synced {
        r := CreateFirstAdmin(adminId, salt);
      } else {
        r := Err(Internal("invalid JWT public key PEM"));
      }
      RecordStart(before, keyId, adminId, salt, now, r);
    }

    /** An administrator, but only for an empty user table. */
    method CreateFirstAdmin(adminId: Id, salt: string) returns (r: Result<(), ApiError>)
      requires Valid()
      modifies this`users
      ensures Valid()
      ensures (View(), r) == FirstAdmin(p, old(View()), adminId, salt)
    {
      if users != map[] {
        return Ok(());
      }
      var hash := p.hashPassword(config.adminPassword, salt);
      if hash.None? {
        return Err(Internal("failed to hash password"));
      }
      users := users[adminId := UserRow(config.adminEmail, config.adminName, SuperAdmin, Active, hash.value)];
      r := Ok(());
    }

    /** A start: the first successful one begins a run, a later one is a step of it. */
    ghost method RecordStart(before: AuthState, keyId: Id, adminId: Id, salt: string, now: Instant, r: Result<(),
                             ApiError>)
      requires Bootstrap(p, before, config, keyId, adminId, salt, now) == (View(), r)
      modifies this`states, this`actions
      ensures old(states) == [] && before == Empty(before.config) && ValidKeys(p, config) && r.Ok? ==> Reachable()
      ensures
        && IsRun(p, old(states), old(actions)) && old(states)[|old(states)| - 1] == before
        && Enabled(p, before, DoBootstrap(config, keyId, adminId, salt, now))
        ==> Reachable()
    {
      if IsRun(p, states, actions) {
        hide IsRun, Bootstrap, Started;
        LastOfRun(p, states, actions);
        Record(before, DoBootstrap(config, keyId, adminId, salt, now));
      } else if states == [] && before == Empty(before.config) && ValidKeys(p, config) && r.Ok? {
        hide SyncKeys;
        states, actions := [View()], [];
        assert IsStart(p, View(), config, keyId, adminId, salt, now);
      }
    }
  }
}
