/** What was handed out in one call, judged at every later point of the run. */
module AuthLifetimes {
  import opened Wrappers
  import opened Models
  import opened AuthModel
  import opened AuthSteps
  import opened AuthRuns
  import opened AuthChanges
  import opened AuthInvariants
  import opened AuthTokens

  // ---------- sessions ----------

  /** Both tokens are signed by the state the call left, for the row it left. */
  ghost predicate Issued(p: Primitives, t: AuthState, out: LoginOutput, refreshId: Id, jti: string, now: Instant) {
    && out.user.id in t.users
    && Sign(p, t, AccessPayload(AccessClaimsFor(p, t, out.user, refreshId, jti, now))) == Ok(out.token)
    && Sign(p, t, RefreshPayload(RefreshClaimsFor(p, t, refreshId, out.user.id, now))) == Ok(out.refreshToken)
    && refreshId in t.refresh
    && t.refresh[refreshId] == RefreshRow(out.user.id, now, After(now, t.config.refreshTtlSeconds), None)
  }

  lemma OpenIssues(p: Primitives, s: AuthState, user: User, refreshId: Id, jti: string, now: Instant)
    requires user.id in s.users && OpenSession(p, s, user, refreshId, jti, now).1.Ok?
    ensures var (t, r) := OpenSession(p, s, user, refreshId, jti, now);
      Issued(p, t, r.value, refreshId, jti, now)
  {
    hide AccessPayload, RefreshPayload, ActiveKey;
  }

  lemma LoginIssues(p: Primitives, s: AuthState, email: string, password: string, refreshId: Id, jti: string,
                    now: Instant)
    requires Login(p, s, email, password, refreshId, jti, now).1.Ok?
    ensures var (t, r) := Login(p, s, email, password, refreshId, jti, now);
      Issued(p, t, r.value, refreshId, jti, now)
  {
    hide Issued, OpenSession;
    OpenIssues(p, s, Person(s, UserByEmail(s.users, email).value), refreshId, jti, now);
  }

  lemma AcceptIssues(p: Primitives, s: AuthState, token: string, password: string, salt: string, refreshId: Id,
                     jti: string, now: Instant)
    requires AcceptInvite(p, s, token, password, salt, refreshId, jti, now).1.Ok?
    ensures var (t, r) := AcceptInvite(p, s, token, password, salt, refreshId, jti, now);
      Issued(p, t, r.value, refreshId, jti, now)
  {
    hide Issued, OpenSession;
    var (s1, begun) := SetInvitedPassword(p, s, token, password, salt, now);
    var inviteId := begun.value;
    var s2 := s1.(invites := s1.invites[inviteId := s1.invites[inviteId].(acceptedAt := Some(now))]);
    OpenIssues(p, s2, Person(s2, s1.invites[inviteId].userId), refreshId, jti, now);
  }

  lemma RefreshIssues(p: Primitives, s: AuthState, token: string, refreshId: Id, jti: string, now: Instant)
    requires refreshId !in s.refresh && RefreshSession(p, s, token, refreshId, jti, now).1.Ok?
    ensures var (t, r) := RefreshSession(p, s, token, refreshId, jti, now);
      Issued(p, t, r.value, refreshId, jti, now)
  {
    hide AccessPayload, RefreshPayload, ActiveKey, VerifyRefresh;
  }

  lemma AnswerIssues(p: Primitives, s: AuthState, a: Action)
    requires Enabled(p, s, a) && AsksForSession(a) && Answer(p, s, a).Ok?
    ensures Issued(p, Next(p, s, a), Answer(p, s, a).value, a.refreshId, a.jti, a.now)
  {
    hide Issued, Login, AcceptInvite, RefreshSession;
    match a {
      case DoLogin(email, password, refreshId, jti, now) => LoginIssues(p, s, email, password, refreshId, jti, now);
      case DoAccept(token, password, salt, refreshId, jti, now) =>
        AcceptIssues(p, s, token, password, salt, refreshId, jti, now);
      case DoRefresh(token, refreshId, jti, now) => RefreshIssues(p, s, token, refreshId, jti, now);
    }
  }

  ghost predicate IsActive(s: AuthState, id: Id) {
    id in s.users && s.users[id].status == Active
  }

  /**
    * An access token handed out by a call authenticates, in every later state of the run, exactly
    * its user as stored then: while it has not expired and that user is active. Nothing else ends
    * it: neither a logout, nor a refresh, nor a restart with other keys.
    */
  lemma AccessTokenAcrossRun(p: Primitives, states: seq<AuthState>, actions: seq<Action>, i: nat, j: nat,
                             later: Instant)
    requires Lawful(p) && IsRun(p, states, actions) && i < j < |states|
    requires AsksForSession(actions[i]) && Answer(p, states[i], actions[i]).Ok?
    ensures var out := Answer(p, states[i], actions[i]).value;
      var expiry := Seconds(actions[i].now) + states[i + 1].config.accessTtlSeconds;
      AuthenticateBearer(p, states[j], out.token, later)
      == (states[j],
          if Seconds(later) <= expiry + states[j].config.leewaySeconds && IsActive(states[j], out.user.id)
          then Ok(Person(states[j], out.user.id)) else Err(Unauthorized))
  {
    hide Lawful, Started, Next, Answer, Enabled, Sign, VerifyAccess, Extends, AccessPayload, Person;
    var a, t := actions[i], states[i + 1];
    var out := Answer(p, states[i], a).value;
    AnswerIssues(p, states[i], a);
    var c := AccessClaimsFor(p, t, out.user, a.refreshId, a.jti, a.now);
    AccessTokenLastsUntilExpiry(p, states, actions, i + 1, j, c, later);
    SignedIsEncoded(p, t, AccessPayload(c));
    ParseIds(p, out.user.id, a.refreshId);
  }

  /**
    * A refresh token handed out by a call stands, in every later state of the run, exactly for its
    * row: while the row is not revoked and has not expired.
    */
  lemma RefreshTokenAcrossRun(p: Primitives, states: seq<AuthState>, actions: seq<Action>, i: nat, j: nat,
                              later: Instant)
    requires Lawful(p) && IsRun(p, states, actions) && i < j < |states|
    requires AsksForSession(actions[i]) && Answer(p, states[i], actions[i]).Ok?
    ensures var out, id := Answer(p, states[i], actions[i]).value, actions[i].refreshId;
      && id in states[j].refresh
      && states[j].refresh[id].userId == out.user.id
      && ActiveRefresh(p, states[j], out.refreshToken, later)
         == (if states[j].refresh[id].revokedAt.None?
                && later < After(actions[i].now, states[i + 1].config.refreshTtlSeconds)
             then Ok(id) else Err(Unauthorized))
  {
    hide Lawful, Started, Next, Answer, Enabled, Sign, VerifyRefresh, RefreshPayload, Seconds, After,
      KeysExtend, ApiTokensExtend, InvitesExtend, UsersExtend;
    var a, t := actions[i], states[i + 1];
    var out := Answer(p, states[i], a).value;
    AnswerIssues(p, states[i], a);
    var c := RefreshClaimsFor(p, t, a.refreshId, out.user.id, a.now);
    RefreshTokenLastsUntilExpiry(p, states, actions, i + 1, j, c, later);
    RunExtends(p, states, actions, i + 1, j);
    ParseIds(p, out.user.id, a.refreshId);
    if later < After(a.now, t.config.refreshTtlSeconds) {
      SecondsMonotone(later, After(a.now, t.config.refreshTtlSeconds));
    }
  }

  lemma ParseIds(p: Primitives, a: Id, b: Id)
    requires Lawful(p)
    ensures p.parseId(p.showId(a)) == Some(a) && p.parseId(p.showId(b)) == Some(b)
  {
  }

  lemma SecondsMonotone(a: Instant, b: Instant)
    requires a <= b
    ensures Seconds(a) <= Seconds(b)
  {
  }

  // ---------- API tokens ----------

  /**
    * An API token authenticates, in every later state of the run and at any time, exactly the user
    * it was created for: while it is not revoked and that user is active. Its use is recorded.
    */
  lemma ApiTokenAcrossRun(p: Primitives, states: seq<AuthState>, actions: seq<Action>, i: nat, j: nat, later: Instant)
    requires Lawful(p) && IsRun(p, states, actions) && i < j < |states|
    requires actions[i].DoCreateApiToken?
    requires var a := actions[i]; CreateApiToken(p, states[i], a.user, a.name, a.random, a.id, a.now).1.Ok?
    ensures var id, user, s := actions[i].id, actions[i].user.id, states[j];
      && id in s.apiTokens
      && AuthenticateBearer(p, s, API_TOKEN_PREFIX + actions[i].random, later)
         == if s.apiTokens[id].revokedAt.None? && IsActive(s, user)
            then (s.(apiTokens := s.apiTokens[id := s.apiTokens[id].(lastUsedAt := Some(later))]), Ok(Person(s, user)))
            else (s, Err(Unauthorized))
  {
    hide Lawful, Started, Inv, VerifyAccess, Person, KeysExtend, RefreshExtends, InvitesExtend, UsersExtend;
    var a, s := actions[i], states[j];
    var hash := p.tokenHash(API_TOKEN_PREFIX + a.random);
    assert states[i + 1].apiTokens[a.id].tokenHash == hash && states[i + 1].apiTokens[a.id].userId == a.user.id;
    RunExtends(p, states, actions, i + 1, j);
    RunsKeepInv(p, states, actions, j);
    TokenHashesOfInv(p, s);
    ApiTokenIsNoJwt(p, s, a.random, 0, "", later);
    assert s.apiTokens[a.id].tokenHash == hash && s.apiTokens[a.id].userId == a.user.id;
    assert ApiTokenByHash(s.apiTokens, hash) == Some(a.id);
  }

  lemma TokenHashesOfInv(p: Primitives, s: AuthState)
    requires Inv(p, s)
    ensures UniqueTokenHashes(s.apiTokens)
  {
  }

  // ---------- invitations ----------

  ghost function Invitation(p: Primitives, s: AuthState, a: Action): Result<InviteOutput, ApiError>
    requires a.DoInvite?
  {
    InviteUser(p, s, a.input, a.rawToken, a.userId, a.inviteId, a.roleId, a.now).1
  }

  /**
    * An acceptance succeeds only for an open invite of a waiting user; a refusal before the first
    * update changes nothing.
    */
  lemma AcceptedOnlyIf(p: Primitives, s: AuthState, inviteId: Id, token: string, password: string, salt: string,
                       refreshId: Id, jti: string, now: Instant)
    requires inviteId in s.invites && s.invites[inviteId].tokenHash == p.tokenHash(token)
    requires FoundBy(p, s, token, inviteId)
    requires s.invites[inviteId].userId in s.users
    requires !(now <= s.invites[inviteId].expiresAt
               && s.users[s.invites[inviteId].userId].status == Invited
               && p.hashPassword(password, salt).Some?)
    ensures var (t, r) := AcceptInvite(p, s, token, password, salt, refreshId, jti, now);
      t == s && r.Err?
  {
    assert InviteByHash(s.invites, p.tokenHash(token)) == Some(inviteId);
  }

  /** The token of an invitation's link still finds its one row. */
  lemma InviteStays(p: Primitives, states: seq<AuthState>, actions: seq<Action>, i: nat, j: nat)
    requires Lawful(p) && IsRun(p, states, actions) && i < j < |states| && actions[i].DoInvite?
    requires Invitation(p, states[i], actions[i]).Ok?
    ensures var a, s := actions[i], states[j];
      && KeysOk(p, s) && CredentialsOk(s.users) && InvitesOk(s)
      && a.inviteId in s.invites && a.userId in s.users && s.users[a.userId].email == a.input.email
      && FoundBy(p, s, a.rawToken, a.inviteId)
      && s.invites[a.inviteId].(acceptedAt := None)
         == InviteRow(a.userId, p.tokenHash(a.rawToken), Invitation(p, states[i], a).value.expiresAt, None, a.now)
  {
    hide Lawful, Started, InviteUser, KeysOk, CredentialsOk, KeysExtend, RefreshExtends, ApiTokensExtend, InvitesOk;
    var a, t := actions[i], states[i + 1];
    InviteLeaves(p, states[i], a.input, a.rawToken, a.userId, a.inviteId, a.roleId, a.now);
    RunExtends(p, states, actions, i + 1, j);
    RunsKeepInv(p, states, actions, j);
    assert t.invites[a.inviteId].tokenHash == p.tokenHash(a.rawToken);
  }

  /**
    * The token of an invitation's link is accepted, in every later state of the run, exactly for the
    * invited user: while it has not expired and that user still waits. Otherwise nothing changes.
    */
  lemma InviteAcrossRun(p: Primitives, states: seq<AuthState>, actions: seq<Action>, i: nat, j: nat,
                        password: string, salt: string, refreshId: Id, jti: string, later: Instant)
    requires Lawful(p) && IsRun(p, states, actions) && i < j < |states| && actions[i].DoInvite?
    requires Invitation(p, states[i], actions[i]).Ok?
    ensures var a, s := actions[i], states[j];
      var (t, r) := AcceptInvite(p, s, a.rawToken, password, salt, refreshId, jti, later);
      && a.userId in s.users
      && (r.Ok? <==> later <= Invitation(p, states[i], a).value.expiresAt && s.users[a.userId].status == Invited
                     && p.hashPassword(password, salt).Some?)
      && (r.Ok? ==> r.value.user.id == a.userId && r.value.user.email == a.input.email)
      && (r.Err? ==> t == s)
  {
    var a, s := actions[i], states[j];
    hide *;
    InviteStays(p, states, actions, i, j);
    var invite := s.invites[a.inviteId];
    if later <= invite.expiresAt && s.users[a.userId].status == Invited && p.hashPassword(password, salt).Some? {
      WaitingIsUnmarked(s, a.inviteId);
      PendingInviteAccepted(p, s, a.inviteId, a.rawToken, password, salt, refreshId, jti, later);
    } else {
      AcceptedOnlyIf(p, s, a.inviteId, a.rawToken, password, salt, refreshId, jti, later);
    }
  }

  lemma WaitingIsUnmarked(s: AuthState, inviteId: Id)
    requires CredentialsOk(s.users) && InvitesOk(s) && inviteId in s.invites
    requires s.users[s.invites[inviteId].userId].status == Invited
    ensures s.invites[inviteId].acceptedAt.None?
  {
  }
}
