/** Administration, credentials, invitations and start-up: when each call succeeds and what follows from it. */
module AuthOutcomes {
  import opened Wrappers
  import opened Models
  import opened AuthModel
  import opened AuthSteps
  import opened AuthRuns
  import opened AuthChanges
  import opened AuthInvariants
  import opened AuthSessions
  import opened AuthTokens
  import opened AuthLifetimes
  import opened AuthEffects
  import TenancyEffects
  import Paths

  // ---------- administration ----------

  ghost predicate TwoActiveAdmins(users: map<Id, UserRow>) {
    exists a, b :: a != b && IsActiveAdmin(users, a) && IsActiveAdmin(users, b)
  }

  lemma CountsAdmins(users: map<Id, UserRow>)
    ensures |ActiveAdmins(users)| > 1 <==> TwoActiveAdmins(users)
  {
    var admins := ActiveAdmins(users);
    if |admins| > 1 {
      var a :| a in admins;
      var b := AnotherAdmin(users, a);
      assert IsActiveAdmin(users, a);
    }
    if a, b :| a != b && IsActiveAdmin(users, a) && IsActiveAdmin(users, b) {
      assert {a, b} <= admins;
      assert |{a, b}| == 2;
      FewerInSubset({a, b}, admins);
    }
  }

  lemma FewerInSubset(a: set<Id>, b: set<Id>)
    requires a <= b
    ensures |a| <= |b|
  {
    assert b == a + (b - a);
  }

  /** This user's row has changed, and nothing else at all. */
  ghost predicate OnlyUser(s: AuthState, t: AuthState, id: Id, row: UserRow) {
    && id in s.users && t.users.Keys == s.users.Keys && t.users[id] == row
    && (forall x | x in s.users && x != id :: t.users[x] == s.users[x])
    && t == s.(users := t.users)
  }

  lemma UserReplaced(s: AuthState, id: Id, row: UserRow)
    requires id in s.users
    ensures OnlyUser(s, s.(users := s.users[id := row]), id, row)
    ensures OnlyUser(s, s, id, s.users[id])
  {
  }

  /** Disabling succeeds for whoever is disabled, is no super admin, or leaves another; it disables that user alone. */
  lemma DisableOutcome(s: AuthState, id: Id)
    ensures var (t, r) := DisableUser(s, id);
      && (r.Ok? <==> && id in s.users
                     && (s.users[id].status == Disabled || s.users[id].role != SuperAdmin || TwoActiveAdmins(s.users)))
      && (r.Err? ==> t == s
                     && r.error == if id in s.users then BadRequest("cannot disable the last active platform admin")
                                   else Unauthorized)
      && (r.Ok? ==> && OnlyUser(s, t, id, s.users[id].(status := Disabled))
                    && Describes(t, r.value) && r.value.id == id && r.value.status == Disabled)
  {
    hide ActiveAdmins, Person, Describes, OnlyUser, TwoActiveAdmins;
    CountsAdmins(s.users);
    if id in s.users {
      var t := WithStatus(s, id, Disabled);
      UserReplaced(s, id, s.users[id].(status := Disabled));
      Answered(s, id);
      Answered(t, id);
    }
  }

  lemma Answered(s: AuthState, id: Id)
    requires id in s.users
    ensures Describes(s, Person(s, id)) && Person(s, id).id == id
    ensures Person(s, id).status == s.users[id].status && Person(s, id).role == s.users[id].role
  {
    hide Describes;
    PersonIsDescribed(s, id);
  }

  /** Reactivation succeeds exactly for a disabled user who has a password; it makes that user alone active. */
  lemma ReactivateOutcome(s: AuthState, id: Id)
    ensures var (t, r) := ReactivateUser(s, id);
      && (r.Ok? <==> id in s.users && s.users[id].status == Disabled && s.users[id].passwordHash != "")
      && (r.Err? ==> t == s
                     && r.error == (if id !in s.users then Unauthorized
                                    else if s.users[id].status != Disabled
                                    then BadRequest("only disabled users can be reactivated")
                                    else BadRequest("invited users must accept their invite before reactivation")))
      && (r.Ok? ==> && OnlyUser(s, t, id, s.users[id].(status := Active))
                    && Describes(t, r.value) && r.value.id == id && r.value.status == Active)
  {
    hide Person, Describes, OnlyUser;
    if id in s.users {
      UserReplaced(s, id, s.users[id].(status := Active));
      Answered(WithStatus(s, id, Active), id);
    }
  }

  /** A role changes unless it is the last active super admin's; it is that user's alone. */
  lemma ChangeRoleOutcome(s: AuthState, id: Id, role: Role)
    ensures var (t, r) := ChangeUserRole(s, id, role);
      && (r.Ok? <==> && id in s.users
                     && (role == SuperAdmin || !IsActiveAdmin(s.users, id) || TwoActiveAdmins(s.users)))
      && (r.Err? ==> t == s
                     && r.error == if id in s.users then BadRequest("cannot remove the last active platform admin")
                                   else Unauthorized)
      && (r.Ok? ==> && OnlyUser(s, t, id, s.users[id].(role := role))
                    && Describes(t, r.value) && r.value.id == id && r.value.role == role)
  {
    hide ActiveAdmins, Person, Describes, OnlyUser, TwoActiveAdmins;
    CountsAdmins(s.users);
    if id in s.users {
      UserReplaced(s, id, s.users[id].(role := role));
      Answered(WithRole(s, id, role), id);
    }
  }

  // ---------- a disabled user stays out ----------

  ghost predicate IsDisabled(s: AuthState, id: Id) {
    id in s.users && s.users[id].status == Disabled
  }

  lemma AcceptKeepsDisabled(p: Primitives, s: AuthState, token: string, password: string, salt: string,
                            refreshId: Id, jti: string, now: Instant, id: Id)
    requires IsDisabled(s, id)
    ensures IsDisabled(SetInvitedPassword(p, s, token, password, salt, now).0, id)
    ensures IsDisabled(AcceptInvite(p, s, token, password, salt, refreshId, jti, now).0, id)
  {
    hide Sign, SignBoth, Person;
  }

  lemma InviteKeepsDisabled(p: Primitives, s: AuthState, a: Action, id: Id)
    requires a.DoInvite? && Enabled(p, s, a) && IsDisabled(s, id)
    ensures IsDisabled(Next(p, s, a), id)
  {
    hide UserByEmail, InviteByHash, CanAdministerWorkspace, UserFrom;
  }

  lemma AdministrationKeepsDisabled(s: AuthState, other: Id, role: Role, id: Id)
    requires IsDisabled(s, id)
    ensures IsDisabled(DisableUser(s, other).0, id)
    ensures other != id ==> IsDisabled(ReactivateUser(s, other).0, id)
    ensures IsDisabled(ChangeUserRole(s, other, role).0, id)
  {
    hide DisableUser, ReactivateUser, ChangeUserRole, Describes, TwoActiveAdmins;
    DisableOutcome(s, other);
    ReactivateOutcome(s, other);
    ChangeRoleOutcome(s, other, role);
  }

  lemma OthersKeepUsers(p: Primitives, s: AuthState, a: Action)
    requires Enabled(p, s, a) && s.users != map[]
    requires a.DoBootstrap? || a.DoLogin? || a.DoRefresh? || a.DoLogout? || a.DoAuthenticate? || a.DoCreateApiToken?
             || a.DoRevokeApiToken? || a.DoTenant?
    ensures Next(p, s, a).users == s.users
  {
    hide SyncKeys, VerifyAccess, Person, ApiTokenByHash, ActiveRefresh, Sign, SignBoth, UserByEmail;
  }

  /** Nothing but a reactivation of the user ends it. */
  lemma StaysDisabled(p: Primitives, s: AuthState, a: Action, id: Id)
    requires Enabled(p, s, a) && IsDisabled(s, id) && a != DoReactivate(id)
    ensures IsDisabled(Next(p, s, a), id)
  {
    hide AcceptInvite, SetInvitedPassword, DisableUser, ReactivateUser, ChangeUserRole;
    match a {
      case DoInvite(_, _, _, _, _, _) => InviteKeepsDisabled(p, s, a, id);
      case DoAccept(token, password, salt, refreshId, jti, now) =>
        AcceptKeepsDisabled(p, s, token, password, salt, refreshId, jti, now, id);
      case DoAcceptInterrupted(token, password, salt, now) =>
        AcceptKeepsDisabled(p, s, token, password, salt, 0, "", now, id);
      case DoDisable(other) => AdministrationKeepsDisabled(s, other, Viewer, id);
      case DoReactivate(other) => AdministrationKeepsDisabled(s, other, Viewer, id);
      case DoChangeRole(other, role) => AdministrationKeepsDisabled(s, other, role, id);
      case _ =>
        hide Next, Enabled;
        OthersKeepUsers(p, s, a);
    }
  }

  /** No login, refresh, acceptance or bearer credential succeeds for the user. */
  ghost predicate ShutOut(p: Primitives, s: AuthState, id: Id) {
    && (forall email, password, refreshId, jti, now ::
          var r := Login(p, s, email, password, refreshId, jti, now).1;
          r.Ok? ==> r.value.user.id != id)
    && (forall token, refreshId: Id, jti, now | refreshId !in s.refresh ::
          var r := RefreshSession(p, s, token, refreshId, jti, now).1;
          r.Ok? ==> r.value.user.id != id)
    && (forall token, password, salt, refreshId, jti, now ::
          var r := AcceptInvite(p, s, token, password, salt, refreshId, jti, now).1;
          r.Ok? ==> r.value.user.id != id)
    && (forall token, now ::
          var r := AuthenticateBearer(p, s, token, now).1;
          r.Ok? ==> r.value.id != id)
  }

  lemma DisabledIsShutOut(p: Primitives, s: AuthState, id: Id)
    requires IsDisabled(s, id)
    ensures ShutOut(p, s, id)
  {
    hide Login, RefreshSession, AuthenticateBearer, AcceptInvite, SetInvitedPassword, Describes;
    forall email, password, refreshId, jti, now | Login(p, s, email, password, refreshId, jti, now).1.Ok?
      ensures Login(p, s, email, password, refreshId, jti, now).1.value.user.id != id
    {
      LoginIsActive(p, s, email, password, refreshId, jti, now);
    }
    forall token, refreshId: Id, jti, now
      | refreshId !in s.refresh && RefreshSession(p, s, token, refreshId, jti, now).1.Ok?
      ensures RefreshSession(p, s, token, refreshId, jti, now).1.value.user.id != id
    {
      RefreshIsActive(p, s, token, refreshId, jti, now);
    }
    forall token, password, salt, refreshId, jti, now
      | AcceptInvite(p, s, token, password, salt, refreshId, jti, now).1.Ok?
      ensures AcceptInvite(p, s, token, password, salt, refreshId, jti, now).1.value.user.id != id
    {
      AcceptIsDescribed(p, s, token, password, salt, refreshId, jti, now);
      DescribedStatus(AcceptInvite(p, s, token, password, salt, refreshId, jti, now).0,
                      AcceptInvite(p, s, token, password, salt, refreshId, jti, now).1.value.user);
      AcceptKeepsDisabled(p, s, token, password, salt, refreshId, jti, now, id);
    }
    forall token, now | AuthenticateBearer(p, s, token, now).1.Ok?
      ensures AuthenticateBearer(p, s, token, now).1.value.id != id
    {
      AcceptedBearerIsActive(p, s, token, now);
    }
  }

  lemma LoginIsActive(p: Primitives, s: AuthState, email: string, password: string, refreshId: Id, jti: string,
                      now: Instant)
    requires Login(p, s, email, password, refreshId, jti, now).1.Ok?
    ensures IsActive(s, Login(p, s, email, password, refreshId, jti, now).1.value.user.id)
  {
    hide Sign;
  }

  lemma RefreshIsActive(p: Primitives, s: AuthState, token: string, refreshId: Id, jti: string, now: Instant)
    requires RefreshSession(p, s, token, refreshId, jti, now).1.Ok?
    ensures IsActive(s, RefreshSession(p, s, token, refreshId, jti, now).1.value.user.id)
  {
    hide Sign, ActiveRefresh;
  }

  /** From an accepted disable on, the user is out until somebody reactivates that user. */
  lemma {:induction false} DisabledStaysOut(p: Primitives, states: seq<AuthState>, actions: seq<Action>, i: nat,
                                            j: nat, id: Id)
    requires IsRun(p, states, actions) && i < j < |states|
    requires actions[i] == DoDisable(id) && DisableUser(states[i], id).1.Ok?
    requires forall k | i < k < j :: actions[k] != DoReactivate(id)
    ensures IsDisabled(states[j], id) && ShutOut(p, states[j], id)
    decreases j
  {
    hide Next, Enabled, Started, ShutOut, DisableUser, IsDisabled;
    if j == i + 1 {
      DisableStep(p, states[i], id);
    } else {
      DisabledStaysOut(p, states, actions, i, j - 1, id);
      StaysDisabled(p, states[j - 1], actions[j - 1], id);
    }
    DisabledIsShutOut(p, states[j], id);
  }

  lemma DisableStep(p: Primitives, s: AuthState, id: Id)
    requires DisableUser(s, id).1.Ok?
    ensures IsDisabled(Next(p, s, DoDisable(id)), id)
  {
    hide DisableUser, Describes, TwoActiveAdmins;
    DisableOutcome(s, id);
  }

  // ---------- sessions ----------

  /** Exactly this refresh row has ended, now, and nothing else has changed. */
  ghost predicate OnlyEnds(s: AuthState, t: AuthState, id: Id, now: Instant) {
    && id in s.refresh && t.refresh.Keys == s.refresh.Keys && t.refresh[id] == s.refresh[id].(revokedAt := Some(now))
    && (forall x | x in s.refresh && x != id :: t.refresh[x] == s.refresh[x])
    && t == s.(refresh := t.refresh)
  }

  /**
    * In every later state of a run, the refresh token a call handed out logs out, once, while its row
    * is neither revoked nor expired, whatever the user's status; it ends that row at that time.
    */
  lemma LogoutAcrossRun(p: Primitives, states: seq<AuthState>, actions: seq<Action>, i: nat, j: nat, later: Instant)
    requires Lawful(p) && IsRun(p, states, actions) && i < j < |states|
    requires AsksForSession(actions[i]) && Answer(p, states[i], actions[i]).Ok?
    ensures var id, s := actions[i].refreshId, states[j];
      var (t, r) := Logout(p, s, Answer(p, states[i], actions[i]).value.refreshToken, later);
      && id in s.refresh
      && (r.Ok? <==> s.refresh[id].revokedAt.None?
                     && later < After(actions[i].now, states[i + 1].config.refreshTtlSeconds))
      && (r.Ok? ==> OnlyEnds(s, t, id, later))
      && (r.Err? ==> (t, r) == (s, Err(Unauthorized)))
  {
    hide IsRun, Lawful, ActiveRefresh, Answer, After;
    RefreshTokenAcrossRun(p, states, actions, i, j, later);
  }

  /** The same token refreshes while its row is neither revoked nor expired and its user is active. */
  lemma RefreshAcrossRun(p: Primitives, states: seq<AuthState>, actions: seq<Action>, i: nat, j: nat,
                         refreshId: Id, jti: string, later: Instant)
    requires Lawful(p) && IsRun(p, states, actions) && i < j < |states|
    requires AsksForSession(actions[i]) && Answer(p, states[i], actions[i]).Ok?
    ensures var out, id, s := Answer(p, states[i], actions[i]).value, actions[i].refreshId, states[j];
      var (t, r) := RefreshSession(p, s, out.refreshToken, refreshId, jti, later);
      && id in s.refresh
      && (r.Ok? <==> s.refresh[id].revokedAt.None? && IsActive(s, out.user.id)
                     && later < After(actions[i].now, states[i + 1].config.refreshTtlSeconds))
      && (r.Err? ==> t == s)
  {
    var token, id, s := Answer(p, states[i], actions[i]).value.refreshToken, actions[i].refreshId, states[j];
    hide *;
    RefreshTokenAcrossRun(p, states, actions, i, j, later);
    RunsKeepInv(p, states, actions, j);
    RefreshParts(p, s);
    RefreshSucceedsIff(p, s, token, refreshId, jti, later);
    UserThere(s, id);
  }

  lemma RefreshParts(p: Primitives, s: AuthState)
    requires Inv(p, s)
    ensures KeysOk(p, s) && UsersExist(s)
  {
  }

  lemma UserThere(s: AuthState, id: Id)
    requires UsersExist(s) && id in s.refresh
    ensures s.refresh[id].userId in s.users
    ensures IsActive(s, s.refresh[id].userId) <==> s.users[s.refresh[id].userId].status == Active
  {
  }

  /** What an access token says: the session, the user as answered, the issuer, and when it was signed and ends. */
  lemma ClaimsAcrossRun(p: Primitives, states: seq<AuthState>, actions: seq<Action>, i: nat, j: nat, later: Instant)
    requires Lawful(p) && IsRun(p, states, actions) && i < j < |states|
    requires AsksForSession(actions[i]) && Answer(p, states[i], actions[i]).Ok?
    requires Seconds(later) <= Seconds(actions[i].now) + states[i + 1].config.accessTtlSeconds
    ensures var out := Answer(p, states[i], actions[i]).value;
      var read := VerifyAccess(p, states[j], out.token, later);
      && read.Ok?
      && read.value.jti == actions[i].jti
      && p.parseId(read.value.ret) == Some(actions[i].refreshId) && p.parseId(read.value.sub) == Some(out.user.id)
      && read.value.email == out.user.email
      && read.value.role == (match out.user.role
                             case SuperAdmin => "super_admin" case Admin => "admin"
                             case Operator => "operator" case Viewer => "viewer")
      && read.value.iss == states[j].config.issuer && read.value.aud == states[j].config.audience
      && read.value.iat == Seconds(actions[i].now)
      && read.value.exp == Seconds(actions[i].now) + states[i + 1].config.accessTtlSeconds
  {
    hide Lawful, Started, Next, Answer, Enabled, Sign, VerifyAccess, AccessPayload, RefreshPayload, Seconds,
      KeysExtend, RefreshExtends, ApiTokensExtend, InvitesExtend, UsersExtend;
    var a, t := actions[i], states[i + 1];
    var out := Answer(p, states[i], a).value;
    AnswerIssues(p, states[i], a);
    var c := AccessClaimsFor(p, t, out.user, a.refreshId, a.jti, a.now);
    AccessTokenLastsUntilExpiry(p, states, actions, i + 1, j, c, later);
    RunExtends(p, states, actions, i + 1, j);
    ParseIds(p, out.user.id, a.refreshId);
  }

  // ---------- what an accepted credential shows ----------

  /** The token's header names this key, an RSA signature key, and its signature verifies with it. */
  ghost predicate Verified(p: Primitives, key: KeyRow, token: string, payload: Payload) {
    && p.decodeHeader(token).Some? && p.decodeHeader(token).value.kid.Some?
    && p.parseId(p.decodeHeader(token).value.kid.value) == Some(key.id)
    && key.keyType == "RSA" && key.keyUse == "sig" && key.algorithm == "RS256"
    && p.decode(token, key.material) == Some(payload)
  }

  /** An opened token was verified with the key its header names, one of the table's and fit for signatures. */
  lemma OpenedIsVerified(p: Primitives, s: AuthState, token: string)
    requires OpenToken(p, s, token).Ok?
    ensures exists key :: key in s.keys && Verified(p, key, token, OpenToken(p, s, token).value)
  {
    var key := KeyById(s.keys, p.parseId(p.decodeHeader(token).value.kid.value).value).value;
    assert key in s.keys && Verified(p, key, token, OpenToken(p, s, token).value);
  }

  /** Accepted claims are of this issuer, for this audience and in time; a refresh token says what it is. */
  lemma AcceptedIsCurrent(p: Primitives, s: AuthState, token: string, now: Instant)
    ensures var r := VerifyAccess(p, s, token, now);
      r.Ok? ==> && r.value.iss == s.config.issuer && r.value.aud == s.config.audience
                && now / 1_000_000_000 <= r.value.exp + s.config.leewaySeconds && OpenToken(p, s, token).Ok?
    ensures var r := VerifyRefresh(p, s, token, now);
      r.Ok? ==> && r.value.iss == s.config.issuer && r.value.aud == s.config.audience && r.value.typ == "refresh"
                && now / 1_000_000_000 <= r.value.exp + s.config.leewaySeconds && OpenToken(p, s, token).Ok?
  {
    hide OpenToken, ReadAccess, ReadRefresh;
  }

  /** A refresh token stands for a row only if it names the row and its user, and the row is still good. */
  lemma AcceptedRefreshIsGenuine(p: Primitives, s: AuthState, token: string, now: Instant)
    ensures ActiveRefresh(p, s, token, now).Ok? <==>
      && VerifyRefresh(p, s, token, now).Ok?
      && p.parseId(VerifyRefresh(p, s, token, now).value.jti).Some?
      && (var id := p.parseId(VerifyRefresh(p, s, token, now).value.jti).value;
          && id in s.refresh
          && p.parseId(VerifyRefresh(p, s, token, now).value.sub) == Some(s.refresh[id].userId)
          && s.refresh[id].revokedAt.None? && now < s.refresh[id].expiresAt)
    ensures ActiveRefresh(p, s, token, now).Ok? ==>
      p.parseId(VerifyRefresh(p, s, token, now).value.jti) == Some(ActiveRefresh(p, s, token, now).value)
  {
    hide VerifyRefresh;
  }

  /**
    * A bearer is accepted for the subject of a valid access token, or for the user of an unrevoked API
    * token, and no other.
    */
  lemma AcceptedBearerHolds(p: Primitives, s: AuthState, token: string, now: Instant)
    requires AuthenticateBearer(p, s, token, now).1.Ok?
    ensures var user := AuthenticateBearer(p, s, token, now).1.value;
      || (VerifyAccess(p, s, token, now).Ok? && p.parseId(VerifyAccess(p, s, token, now).value.sub) == Some(user.id))
      || ("wara_" <= token && exists id :: id in s.apiTokens && s.apiTokens[id].tokenHash == p.tokenHash(token)
                                           && s.apiTokens[id].revokedAt.None? && s.apiTokens[id].userId == user.id)
  {
    hide VerifyAccess;
    var found := ApiTokenByHash(s.apiTokens, p.tokenHash(token));
    if VerifyAccess(p, s, token, now).Err? {
      assert found.Some? && found.value in s.apiTokens;
    }
  }

  // ---------- API tokens ----------

  /** A token is created unless its hash is taken: a prefix and the random text, of which only the hash is stored. */
  lemma CreateApiTokenOutcome(p: Primitives, s: AuthState, user: User, name: string, random: string, id: Id,
                              now: Instant)
    requires id !in s.apiTokens
    ensures var (t, r) := CreateApiToken(p, s, user, name, random, id, now);
      && (r.Ok? <==> forall x | x in s.apiTokens :: s.apiTokens[x].tokenHash != p.tokenHash("wara_" + random))
      && (r.Err? ==> t == s)
      && (r.Ok? ==>
            && r.value.token == "wara_" + random
            && r.value.apiToken.userId == user.id && r.value.apiToken.name == name
            && r.value.apiToken.tokenHash == p.tokenHash(r.value.token)
            && r.value.apiToken.tokenPrefix <= r.value.token
            && |r.value.apiToken.tokenPrefix| == (if |r.value.token| < 12 then |r.value.token| else 12)
            && r.value.apiToken.createdAt == now
            && r.value.apiToken.revokedAt == None && r.value.apiToken.lastUsedAt == None
            && TenancyEffects.OneMore(s.apiTokens, t.apiTokens, id, r.value.apiToken)
            && t == s.(apiTokens := t.apiTokens))
  {
  }

  /** A user's own token is revoked, an earlier time of revocation kept; anybody else's is not found. */
  lemma RevokeApiTokenOutcome(s: AuthState, user: User, tokenId: Id, now: Instant)
    ensures var (t, r) := RevokeApiToken(s, user, tokenId, now);
      && (r.Ok? <==> tokenId in s.apiTokens && s.apiTokens[tokenId].userId == user.id)
      && (r.Err? ==> t == s && r.error == NotFound("api token"))
      && (r.Ok? ==>
            && r.value.revokedAt == Some(match s.apiTokens[tokenId].revokedAt { case Some(at) => at case None => now })
            && r.value.(revokedAt := None) == s.apiTokens[tokenId].(revokedAt := None)
            && t.apiTokens.Keys == s.apiTokens.Keys && t.apiTokens[tokenId] == r.value
            && (forall x | x in s.apiTokens && x != tokenId :: t.apiTokens[x] == s.apiTokens[x])
            && t == s.(apiTokens := t.apiTokens))
  {
  }

  lemma RevokedByStep(p: Primitives, s: AuthState, a: Action)
    requires a.DoRevokeApiToken? && RevokeApiToken(s, a.user, a.tokenId, a.now).1.Ok?
    ensures a.tokenId in Next(p, s, a).apiTokens && Next(p, s, a).apiTokens[a.tokenId].revokedAt.Some?
  {
    hide RevokeApiToken;
    RevokeApiTokenOutcome(s, a.user, a.tokenId, a.now);
  }

  /** The token that was handed out is refused in every state after it was revoked. */
  lemma RevokedApiTokenIsRefused(p: Primitives, states: seq<AuthState>, actions: seq<Action>, i: nat, k: nat, j: nat,
                                 later: Instant)
    requires Lawful(p) && IsRun(p, states, actions) && i < k < j < |states|
    requires actions[i].DoCreateApiToken? && actions[k].DoRevokeApiToken? && actions[k].tokenId == actions[i].id
    requires var a := actions[i]; CreateApiToken(p, states[i], a.user, a.name, a.random, a.id, a.now).1.Ok?
    requires RevokeApiToken(states[k], actions[k].user, actions[k].tokenId, actions[k].now).1.Ok?
    ensures var a := actions[i];
      var token := CreateApiToken(p, states[i], a.user, a.name, a.random, a.id, a.now).1.value.token;
      AuthenticateBearer(p, states[j], token, later) == (states[j], Err(Unauthorized))
  {
    hide Lawful, Started, Next, Enabled, AuthenticateBearer, RevokeApiToken, KeysExtend, RefreshExtends, InvitesExtend,
      UsersExtend, Person;
    RevokedByStep(p, states[k], actions[k]);
    RunExtends(p, states, actions, k + 1, j);
    ApiTokenAcrossRun(p, states, actions, i, j, later);
  }

  // ---------- invitations ----------

  /**
    * An invitation succeeds exactly for an administrator of the workspace, an email nobody has, and a
    * role that may be given.
    */
  lemma InviteOutcome(p: Primitives, s: AuthState, input: InviteInput, rawToken: string, userId: Id, inviteId: Id,
                      roleId: Id, now: Instant)
    requires userId !in s.users && inviteId !in s.invites && UsersExist(s)
    ensures var (t, r) := InviteUser(p, s, input, rawToken, userId, inviteId, roleId, now);
      && (r.Ok? <==>
            && input.role != SuperAdmin
            && (input.inviter.role == SuperAdmin
                || WorkspaceRole(input.workspaceId, Admin) in input.inviter.workspaceRoles)
            && (forall x | x in s.users :: s.users[x].email != input.email)
            && input.workspaceId in s.tables.workspaces
            && (forall x | x in s.invites :: s.invites[x].tokenHash != p.tokenHash(rawToken)))
      && (r.Err? ==> t == s
                     && r.error == (if input.role == SuperAdmin
                                    then BadRequest("super_admin is a global bootstrap-only role")
                                    else if !CanAdministerWorkspace(input.inviter, input.workspaceId) then Forbidden
                                    else if exists x :: x in s.users && s.users[x].email == input.email
                                    then BadRequest("user already exists")
                                    else if input.workspaceId !in s.tables.workspaces then NotFound("workspace")
                                    else Internal("database operation failed")))
      && (r.Ok? ==>
            && r.value.expiresAt == now + s.config.inviteTtlSeconds * 1_000_000_000
            && r.value.inviteLink == Paths.TrimEnd(s.config.appBaseUrl) + "/accept-invite?token=" + rawToken
            && Describes(t, r.value.user) && r.value.user.id == userId && r.value.user.status == Invited
            && r.value.user.email == input.email && r.value.user.name == input.name && r.value.user.role == Viewer
            && r.value.user.workspaceRoles == [WorkspaceRole(input.workspaceId, input.role)]
            && TenancyEffects.OneMore(s.users, t.users, userId, UserRow(input.email, input.name, Viewer, Invited, ""))
            && TenancyEffects.OneMore(s.invites, t.invites, inviteId,
                                      InviteRow(userId, p.tokenHash(rawToken), r.value.expiresAt, None, now))
            && t.tables == s.tables.(roles := s.tables.roles + [RoleRow(roleId, userId, input.workspaceId, input.role)])
            && t == s.(users := t.users, invites := t.invites, tables := t.tables))
  {
    hide Describes, RolesOf, CanAdministerWorkspace;
    var (t, r) := InviteUser(p, s, input, rawToken, userId, inviteId, roleId, now);
    TenancyEffects.AccessIff(input.inviter, input.workspaceId);
    if r.Ok? {
      NewUserIsDescribed(s, t, RoleRow(roleId, userId, input.workspaceId, input.role), r.value.user);
    }
  }

  /** A user no row names yet has the one role that is added. */
  lemma NewUserIsDescribed(s: AuthState, t: AuthState, row: RoleRow, user: User)
    requires forall i | 0 <= i < |s.tables.roles| :: s.tables.roles[i].userId != row.userId
    requires t.tables.roles == s.tables.roles + [row] && row.userId in t.users && t.users[row.userId].role == Viewer
    requires user == UserFrom(row.userId, t.users[row.userId], [])
                     .(workspaceRoles := [WorkspaceRole(row.workspaceId, row.role)])
    ensures Describes(t, user)
  {
    hide Describes;
    RolesOfNobody(s.tables.roles, row.userId);
    RolesOfAppend(s.tables.roles, row, row.userId);
    assert user == Person(t, row.userId);
    PersonIsDescribed(t, row.userId);
  }

  lemma {:induction false} RolesOfNobody(roles: seq<RoleRow>, userId: Id)
    requires forall i | 0 <= i < |roles| :: roles[i].userId != userId
    ensures RolesOf(roles, userId) == []
  {
    if roles != [] {
      RolesOfNobody(roles[1..], userId);
    }
  }

  /**
    * Why an acceptance is refused: no such open invite, or its user is not waiting, or the password
    * cannot be hashed.
    */
  lemma AcceptRefusals(p: Primitives, s: AuthState, inviteId: Id, token: string, password: string, salt: string,
                       refreshId: Id, jti: string, now: Instant)
    requires inviteId in s.invites && s.invites[inviteId].tokenHash == p.tokenHash(token)
    requires FoundBy(p, s, token, inviteId) && s.invites[inviteId].userId in s.users
    ensures var invite := s.invites[inviteId];
      var status := s.users[invite.userId].status;
      var refused := AcceptInvite(p, s, token, password, salt, refreshId, jti, now);
      && (invite.acceptedAt.Some? || invite.expiresAt < now || status == Disabled
          ==> refused == (s, Err(Unauthorized)))
      && (invite.acceptedAt.None? && now <= invite.expiresAt && status == Active
          ==> refused == (s, Err(BadRequest("invite has already been accepted"))))
      && (invite.acceptedAt.None? && now <= invite.expiresAt && status == Invited
          && p.hashPassword(password, salt).None?
          ==> refused == (s, Err(Internal("failed to hash password"))))
  {
    assert InviteByHash(s.invites, p.tokenHash(token)) == Some(inviteId);
  }

  /** A token that no invite has is refused. */
  lemma UnknownInviteRefused(p: Primitives, s: AuthState, token: string, password: string, salt: string,
                             refreshId: Id, jti: string, now: Instant)
    requires forall x | x in s.invites :: s.invites[x].tokenHash != p.tokenHash(token)
    ensures AcceptInvite(p, s, token, password, salt, refreshId, jti, now) == (s, Err(Unauthorized))
  {
  }

  // ---------- start-up ----------

  /** The first start makes one user, the configured super admin, whose password is the configured one. */
  lemma FirstStartOutcome(p: Primitives, config: Config, keyId: Id, adminId: Id, salt: string, now: Instant)
    requires ValidKeys(p, config)
    ensures var (s, r) := Bootstrap(p, Empty(config), config, keyId, adminId, salt, now);
      && (r.Ok? <==> p.hashPassword(config.adminPassword, salt).Some?)
      && (r.Ok? ==>
            && s.users.Keys == {adminId} && s.users[adminId].email == config.adminEmail
            && s.users[adminId].name == config.adminName && s.users[adminId].role == SuperAdmin
            && s.users[adminId].status == Active
            && Some(s.users[adminId].passwordHash) == p.hashPassword(config.adminPassword, salt)
            && s == Empty(config).(users := s.users, keys := s.keys))
  {
    hide SyncKeys;
  }

  /** After the first start the configured email and password log in, as super admin. */
  lemma FirstAdminLogsIn(p: Primitives, config: Config, keyId: Id, adminId: Id, salt: string, now: Instant,
                         refreshId: Id, jti: string, later: Instant)
    requires Lawful(p) && ValidKeys(p, config) && p.hashPassword(config.adminPassword, salt).Some?
    ensures var s := Bootstrap(p, Empty(config), config, keyId, adminId, salt, now).0;
      var r := Login(p, s, config.adminEmail, config.adminPassword, refreshId, jti, later).1;
      r.Ok? && r.value.user.id == adminId && r.value.user.role == SuperAdmin
  {
    hide SyncKeys, Login, Inv, Lawful, Bootstrap, ValidKeys;
    var s := Bootstrap(p, Empty(config), config, keyId, adminId, salt, now).0;
    FirstStartOutcome(p, config, keyId, adminId, salt, now);
    assert IsStart(p, s, config, keyId, adminId, salt, now) by { Starts(p, config, keyId, adminId, salt, now); }
    StartsWithInv(p, s);
    PasswordChecks(p, config.adminPassword, salt);
    LoginSucceedsIff(p, s, config.adminEmail, config.adminPassword, refreshId, jti, later);
  }

  lemma Starts(p: Primitives, config: Config, keyId: Id, adminId: Id, salt: string, now: Instant)
    requires ValidKeys(p, config) && p.hashPassword(config.adminPassword, salt).Some?
    ensures var s := Bootstrap(p, Empty(config), config, keyId, adminId, salt, now).0;
      IsStart(p, s, config, keyId, adminId, salt, now)
  {
    hide SyncKeys;
  }

  /** A later start changes the configuration and the key table alone. */
  lemma LaterStartOutcome(p: Primitives, s: AuthState, config: Config, keyId: Id, adminId: Id, salt: string,
                          now: Instant)
    requires s.users != map[] && ValidKeys(p, config)
    ensures var (t, r) := Bootstrap(p, s, config, keyId, adminId, salt, now);
      r.Ok? && t == s.(config := config, keys := t.keys)
  {
    hide SyncKeys;
  }
}
