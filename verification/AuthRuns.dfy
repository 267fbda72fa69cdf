/** Runs of the authentication service: any sequence of calls after the first start on an empty database. */
module AuthRuns {
  import opened Wrappers
  import opened Models
  import opened AuthModel
  import opened AuthSteps
  import Tenancy

  datatype Action =
    | DoBootstrap(config: Config, keyId: Id, adminId: Id, salt: string, now: Instant)
    | DoLogin(email: string, password: string, refreshId: Id, jti: string, now: Instant)
    | DoInvite(input: InviteInput, rawToken: string, userId: Id, inviteId: Id, roleId: Id, now: Instant)
    | DoAccept(token: string, password: string, salt: string, refreshId: Id, jti: string, now: Instant)
    | DoAcceptInterrupted(token: string, password: string, salt: string, now: Instant)
    | DoRefresh(token: string, refreshId: Id, jti: string, now: Instant)
    | DoLogout(token: string, now: Instant)
    | DoAuthenticate(token: string, now: Instant)
    | DoDisable(id: Id)
    | DoReactivate(id: Id)
    | DoChangeRole(id: Id, role: Role)
    | DoCreateApiToken(user: User, name: string, random: string, id: Id, now: Instant)
    | DoRevokeApiToken(user: User, tokenId: Id, now: Instant)
    | DoTenant(vault: Tenancy.Vault, action: Tenancy.Action)

  /** Identifiers are fresh; a restart has a matching key pair and the same issuer and audience. */
  ghost predicate Enabled(p: Primitives, s: AuthState, a: Action) {
    match a
    case DoBootstrap(config, keyId, adminId, _, _) =>
      && ValidKeys(p, config) && config.issuer == s.config.issuer && config.audience == s.config.audience
      && (forall i | 0 <= i < |s.keys| :: s.keys[i].id != keyId)
    case DoLogin(_, _, refreshId, _, _) => refreshId !in s.refresh
    case DoInvite(_, _, userId, inviteId, _, _) => userId !in s.users && inviteId !in s.invites
    case DoAccept(_, _, _, refreshId, _, _) => refreshId !in s.refresh
    case DoRefresh(_, refreshId, _, _) => refreshId !in s.refresh
    case DoCreateApiToken(_, _, random, id, _) => id !in s.apiTokens && IsTokenText(random)
    case DoTenant(_, action) => Tenancy.Enabled(s.tables, action) && !action.AddRole?
    case _ => true
  }

  ghost function Next(p: Primitives, s: AuthState, a: Action): AuthState
    requires Enabled(p, s, a)
  {
    match a
    case DoBootstrap(config, keyId, adminId, salt, now) => Bootstrap(p, s, config, keyId, adminId, salt, now).0
    case DoLogin(email, password, refreshId, jti, now) => Login(p, s, email, password, refreshId, jti, now).0
    case DoInvite(input, rawToken, userId, inviteId, roleId, now) =>
      InviteUser(p, s, input, rawToken, userId, inviteId, roleId, now).0
    case DoAccept(token, password, salt, refreshId, jti, now) =>
      AcceptInvite(p, s, token, password, salt, refreshId, jti, now).0
    case DoAcceptInterrupted(token, password, salt, now) => SetInvitedPassword(p, s, token, password, salt, now).0
    case DoRefresh(token, refreshId, jti, now) => RefreshSession(p, s, token, refreshId, jti, now).0
    case DoLogout(token, now) => Logout(p, s, token, now).0
    case DoAuthenticate(token, now) => AuthenticateBearer(p, s, token, now).0
    case DoDisable(id) => DisableUser(s, id).0
    case DoReactivate(id) => ReactivateUser(s, id).0
    case DoChangeRole(id, role) => ChangeUserRole(s, id, role).0
    case DoCreateApiToken(user, name, random, id, now) => CreateApiToken(p, s, user, name, random, id, now).0
    case DoRevokeApiToken(user, tokenId, now) => RevokeApiToken(s, user, tokenId, now).0
    case DoTenant(vault, action) => s.(tables := Tenancy.Next(s.tables, vault, action))
  }

  ghost function Empty(config: Config): AuthState {
    AuthState(map[], map[], map[], map[], [], Tenancy.EMPTY, config, [])
  }

  /** The first start: an empty database, a matching key pair, and an answer. */
  ghost predicate IsStart(p: Primitives, s: AuthState, config: Config, keyId: Id, adminId: Id, salt: string,
                          now: Instant)
  {
    ValidKeys(p, config) && Bootstrap(p, Empty(config), config, keyId, adminId, salt, now) == (s, Ok(()))
  }

  ghost predicate Started(p: Primitives, s: AuthState) {
    exists config, keyId: Id, adminId: Id, salt, now: Instant :: IsStart(p, s, config, keyId, adminId, salt, now)
  }

  ghost predicate IsRun(p: Primitives, states: seq<AuthState>, actions: seq<Action>) {
    && |states| == |actions| + 1
    && Started(p, states[0])
    && forall i | 0 <= i < |actions| ::
         Enabled(p, states[i], actions[i]) && states[i + 1] == Next(p, states[i], actions[i])
  }

  predicate AsksForSession(a: Action) {
    a.DoLogin? || a.DoAccept? || a.DoRefresh?
  }

  ghost function Answer(p: Primitives, s: AuthState, a: Action): Result<LoginOutput, ApiError>
    requires AsksForSession(a)
  {
    match a
    case DoLogin(email, password, refreshId, jti, now) => Login(p, s, email, password, refreshId, jti, now).1
    case DoAccept(token, password, salt, refreshId, jti, now) =>
      AcceptInvite(p, s, token, password, salt, refreshId, jti, now).1
    case DoRefresh(token, refreshId, jti, now) => RefreshSession(p, s, token, refreshId, jti, now).1
  }

  // ---------- what no later state takes back ----------

  ghost predicate KeysExtend(s: seq<KeyRow>, t: seq<KeyRow>) {
    && |s| <= |t|
    && forall i | 0 <= i < |s| ::
         t[i].id == s[i].id && t[i].material == s[i].material && (HasJwkMetadata(s[i]) ==> HasJwkMetadata(t[i]))
  }

  ghost predicate RefreshExtends(s: map<Id, RefreshRow>, t: map<Id, RefreshRow>) {
    forall id | id in s ::
      && id in t
      && t[id].(revokedAt := None) == s[id].(revokedAt := None)
      && (s[id].revokedAt.Some? ==> t[id].revokedAt == s[id].revokedAt)
  }

  ghost predicate ApiTokensExtend(s: map<Id, ApiTokenRow>, t: map<Id, ApiTokenRow>) {
    forall id | id in s ::
      && id in t
      && t[id].(revokedAt := None, lastUsedAt := None) == s[id].(revokedAt := None, lastUsedAt := None)
      && (s[id].revokedAt.Some? ==> t[id].revokedAt == s[id].revokedAt)
  }

  ghost predicate InvitesExtend(s: map<Id, InviteRow>, t: map<Id, InviteRow>) {
    forall id | id in s ::
      && id in t
      && t[id].(acceptedAt := None) == s[id].(acceptedAt := None)
      && (s[id].acceptedAt.Some? ==> t[id].acceptedAt.Some?)
  }

  /** No user becomes invited again; one disabled without a password stays as it is. */
  ghost predicate UsersExtend(s: map<Id, UserRow>, t: map<Id, UserRow>) {
    forall id | id in s ::
      && id in t
      && t[id].email == s[id].email
      && (s[id].status != Invited ==> t[id].status != Invited && t[id].passwordHash == s[id].passwordHash)
      && (s[id].status == Disabled && s[id].passwordHash == "" ==> t[id].status == Disabled)
  }

  ghost predicate Extends(s: AuthState, t: AuthState) {
    && KeysExtend(s.keys, t.keys)
    && RefreshExtends(s.refresh, t.refresh)
    && ApiTokensExtend(s.apiTokens, t.apiTokens)
    && InvitesExtend(s.invites, t.invites)
    && UsersExtend(s.users, t.users)
    && t.config.issuer == s.config.issuer && t.config.audience == s.config.audience
    && s.log <= t.log
  }
}
