/** Credentials across calls: what a token is good for, for how long, and what it never passes as. */
module AuthTokens {
  import opened Wrappers
  import opened Models
  import opened AuthModel
  import opened AuthSteps
  import opened AuthRuns
  import opened AuthChanges
  import opened AuthInvariants
  import opened AuthSessions

  // ---------- signed here, verified later ----------

  /** In a state that meets the invariant a token is signed with the key its `kid` names. */
  lemma SignedWithNamedKey(p: Primitives, s: AuthState, payload: Payload) returns (key: KeyRow)
    requires KeysOk(p, s)
    ensures KeyById(s.keys, key.id) == Some(key) && HasJwkMetadata(key)
    ensures Some(key.material) == p.publicKeyOf(s.config.privateKeyPem)
    ensures Sign(p, s, payload) == Ok(p.encode(Header(Some(p.showId(key.id))), payload, s.config.privateKeyPem))
  {
    var i :| OnlyActive(s.keys, i) && Some(s.keys[i].material) == p.publicKeyOf(s.config.privateKeyPem);
    key := s.keys[i];
    var active := ActiveKey(s.keys).value;
    var j :| 0 <= j < |s.keys| && s.keys[j] == active;
    var found := KeyById(s.keys, key.id).value;
    var l :| 0 <= l < |s.keys| && s.keys[l] == found;
  }

  /** What was signed in one state is what a later state reads, whatever keys came since. */
  lemma SignedOpensLater(p: Primitives, s: AuthState, t: AuthState, payload: Payload)
    requires Lawful(p) && KeysOk(p, s) && KeysOk(p, t) && Extends(s, t)
    ensures Sign(p, s, payload).Ok? && OpenToken(p, t, Sign(p, s, payload).value) == Ok(payload)
  {
    hide Sign, KeysExtend, RefreshExtends, ApiTokensExtend, InvitesExtend, UsersExtend;
    var key := SignedWithNamedKey(p, s, payload);
    KeyByIdKept(s.keys, t.keys, key.id);
  }

  lemma RunStates(p: Primitives, states: seq<AuthState>, actions: seq<Action>, i: nat, j: nat)
    requires Lawful(p) && IsRun(p, states, actions) && i <= j < |states|
    ensures KeysOk(p, states[i]) && KeysOk(p, states[j]) && Extends(states[i], states[j])
  {
    hide Lawful, IsRun, Extends, KeysOk;
    RunsKeepInv(p, states, actions, i);
    RunsKeepInv(p, states, actions, j);
    RunExtends(p, states, actions, i, j);
  }

  /**
    * A token signed in any state of a run verifies, in every later state, to exactly the claims it
    * was signed for until it expires, and not after, through any number of restarts with other keys.
    */
  lemma AccessTokenLastsUntilExpiry(p: Primitives, states: seq<AuthState>, actions: seq<Action>, i: nat, j: nat,
                                    c: Claims, now: Instant)
    requires Lawful(p) && IsRun(p, states, actions) && i <= j < |states|
    requires c.iss == states[i].config.issuer && c.aud == states[i].config.audience
    ensures var token := Sign(p, states[i], AccessPayload(c));
      && token.Ok?
      && VerifyAccess(p, states[j], token.value, now)
         == if Seconds(now) <= c.exp + states[j].config.leewaySeconds then Ok(c) else Err(Unauthorized)
  {
    hide Lawful, IsRun, KeysOk, Sign, OpenToken, AccessPayload, ReadAccess;
    RunStates(p, states, actions, i, j);
    SignedOpensLater(p, states[i], states[j], AccessPayload(c));
    ClaimsKinds(c, RefreshClaims("", "", "", "", "", 0, 0));
  }

  lemma RefreshTokenLastsUntilExpiry(p: Primitives, states: seq<AuthState>, actions: seq<Action>, i: nat, j: nat,
                                     c: RefreshClaims, now: Instant)
    requires Lawful(p) && IsRun(p, states, actions) && i <= j < |states|
    requires c.iss == states[i].config.issuer && c.aud == states[i].config.audience && c.typ == "refresh"
    ensures var token := Sign(p, states[i], RefreshPayload(c));
      && token.Ok?
      && VerifyRefresh(p, states[j], token.value, now)
         == if Seconds(now) <= c.exp + states[j].config.leewaySeconds then Ok(c) else Err(Unauthorized)
  {
    hide Lawful, IsRun, KeysOk, Sign, OpenToken, RefreshPayload, ReadRefresh;
    RunStates(p, states, actions, i, j);
    SignedOpensLater(p, states[i], states[j], RefreshPayload(c));
    ClaimsKinds(Claims("", "", "", "", "", "", "", 0, 0), c);
  }

  // ---------- three kinds of credentials ----------

  /** A refresh token signed anywhere never authenticates a request, in any state at all. */
  lemma RefreshTokenIsNoBearer(p: Primitives, s: AuthState, t: AuthState, c: RefreshClaims, now: Instant)
    requires Lawful(p) && Sign(p, s, RefreshPayload(c)).Ok?
    ensures var r := AuthenticateBearer(p, t, Sign(p, s, RefreshPayload(c)).value, now);
      r.0 == t && r.1.Err? && (KeysUsable(p, t) ==> r.1 == Err(Unauthorized))
  {
    var token := Sign(p, s, RefreshPayload(c)).value;
    hide Sign;
    SignedIsEncoded(p, s, RefreshPayload(c));
    OpensAsSigned(p, t, token, RefreshPayload(c));
    ClaimsKinds(Claims("", "", "", "", "", "", "", 0, 0), c);
  }

  /** An access token signed anywhere is never accepted by refresh or logout. */
  lemma AccessTokenIsNoRefresh(p: Primitives, s: AuthState, t: AuthState, c: Claims, refreshId: Id, jti: string,
                               now: Instant)
    requires Lawful(p) && Sign(p, s, AccessPayload(c)).Ok?
    ensures var token := Sign(p, s, AccessPayload(c)).value;
      && RefreshSession(p, t, token, refreshId, jti, now).0 == t
      && RefreshSession(p, t, token, refreshId, jti, now).1.Err?
      && Logout(p, t, token, now).0 == t && Logout(p, t, token, now).1.Err?
  {
    var token := Sign(p, s, AccessPayload(c)).value;
    hide Sign;
    SignedIsEncoded(p, s, AccessPayload(c));
    OpensAsSigned(p, t, token, AccessPayload(c));
    ClaimsKinds(c, RefreshClaims("", "", "", "", "", 0, 0));
  }

  ghost predicate KeysUsable(p: Primitives, s: AuthState) {
    forall k | k in s.keys :: p.usable(k.material)
  }

  lemma SignedIsEncoded(p: Primitives, s: AuthState, payload: Payload)
    requires Lawful(p) && Sign(p, s, payload).Ok?
    ensures exists h, k :: Sign(p, s, payload).value == p.encode(h, payload, k)
    ensures !(API_TOKEN_PREFIX <= Sign(p, s, payload).value)
  {
  }

  /** A signed token opens as what was signed, or not at all. */
  lemma OpensAsSigned(p: Primitives, t: AuthState, token: string, payload: Payload)
    requires Lawful(p) && exists h, k :: token == p.encode(h, payload, k)
    ensures OpenToken(p, t, token).Ok? ==> OpenToken(p, t, token).value == payload
    ensures KeysUsable(p, t) && OpenToken(p, t, token).Err? ==> OpenToken(p, t, token) == Err(Unauthorized)
  {
    var h, k :| token == p.encode(h, payload, k);
  }

  /** An API token is not a JWT: it opens nothing, refreshes nothing and logs nothing out. */
  lemma ApiTokenIsNoJwt(p: Primitives, t: AuthState, random: string, refreshId: Id, jti: string, now: Instant)
    requires Lawful(p) && IsTokenText(random)
    ensures var token := API_TOKEN_PREFIX + random;
      && VerifyAccess(p, t, token, now) == Err(Unauthorized)
      && RefreshSession(p, t, token, refreshId, jti, now) == (t, Err(Unauthorized))
      && Logout(p, t, token, now) == (t, Err(Unauthorized))
  {
    var token := API_TOKEN_PREFIX + random;
    assert '.' !in API_TOKEN_PREFIX && '.' !in random;
  }

  /** Whoever a bearer credential is accepted for is an active user, as stored now. */
  lemma AcceptedBearerIsActive(p: Primitives, s: AuthState, token: string, now: Instant)
    requires AuthenticateBearer(p, s, token, now).1.Ok?
    ensures var user := AuthenticateBearer(p, s, token, now).1.value;
      user.id in s.users && s.users[user.id].status == Active && user == Person(s, user.id)
  {
    hide VerifyAccess;
  }

  // ---------- what succeeds ----------

  /** The refresh row of a session that begins now. */
  ghost function NewRow(s: AuthState, userId: Id, now: Instant): RefreshRow {
    RefreshRow(userId, now, After(now, s.config.refreshTtlSeconds), None)
  }

  /** Login succeeds exactly for an active user's email with that user's password; then one row opens for that user. */
  lemma LoginSucceedsIff(p: Primitives, s: AuthState, email: string, password: string, refreshId: Id, jti: string,
                         now: Instant)
    requires Inv(p, s)
    ensures var (t, r) := Login(p, s, email, password, refreshId, jti, now);
      && (r.Ok? <==> exists id :: id in s.users && s.users[id].email == email && s.users[id].status == Active
                                  && p.verifyPassword(password, s.users[id].passwordHash))
      && (r.Err? ==> (t, r) == (s, Err(Unauthorized)))
      && (r.Ok? ==>
            && r.value.user.id in s.users && r.value.user == Person(s, r.value.user.id) && r.value.user.email == email
            && t == s.(log := t.log,
                       refresh := s.refresh[refreshId := NewRow(s, r.value.user.id, now)]))
  {
    var found := UserByEmail(s.users, email);
    assert KeysOk(p, s) && UniqueEmails(s.users) && CredentialsOk(s.users);
    hide Inv, KeysOk, OpenSession;
    if found.Some? {
      SessionOpens(p, s, Person(s, found.value), refreshId, jti, now);
      OpenSessionTouches(p, s, Person(s, found.value), refreshId, jti, now);
    }
  }

  lemma SessionOpens(p: Primitives, s: AuthState, user: User, refreshId: Id, jti: string, now: Instant)
    requires KeysOk(p, s)
    ensures OpenSession(p, s, user, refreshId, jti, now).1.Ok?
  {
    var t := OpenSession(p, s, user, refreshId, jti, now).0;
    SigningWorks(p, s, RefreshPayload(RefreshClaimsFor(p, s, refreshId, user.id, now)));
    SigningWorks(p, t, AccessPayload(AccessClaimsFor(p, t, user, refreshId, jti, now)));
  }

  /** A refresh succeeds exactly for an unspent token of an active user; a refusal changes nothing. */
  lemma RefreshSucceedsIff(p: Primitives, s: AuthState, token: string, refreshId: Id, jti: string, now: Instant)
    requires KeysOk(p, s) && UsersExist(s)
    ensures var (t, r) := RefreshSession(p, s, token, refreshId, jti, now);
      var current := ActiveRefresh(p, s, token, now);
      && (r.Ok? <==> current.Ok? && s.users[s.refresh[current.value].userId].status == Active)
      && (r.Err? ==> t == s)
  {
    hide KeysOk, Sign, ActiveRefresh;
    var current := ActiveRefresh(p, s, token, now);
    if current.Ok? {
      var userId := s.refresh[current.value].userId;
      SigningWorks(p, s, RefreshPayload(RefreshClaimsFor(p, s, refreshId, userId, now)));
      var t := RefreshSession(p, s, token, refreshId, jti, now).0;
      SigningWorks(p, s, AccessPayload(AccessClaimsFor(p, s, Person(s, userId), refreshId, jti, now)));
      SameSigning(p, s, t);
    }
  }

  /** What a successful refresh changes: the old row ends, one new row of the same user opens, no other is touched. */
  lemma RefreshRotates(p: Primitives, s: AuthState, token: string, refreshId: Id, jti: string, now: Instant)
    requires refreshId !in s.refresh && RefreshSession(p, s, token, refreshId, jti, now).1.Ok?
    ensures ActiveRefresh(p, s, token, now).Ok?
    ensures var (t, r) := RefreshSession(p, s, token, refreshId, jti, now);
      var spent := ActiveRefresh(p, s, token, now).value;
      && s.refresh[spent].userId in s.users && r.value.user == Person(s, s.refresh[spent].userId)
      && t == s.(log := t.log, refresh := t.refresh)
      && t.refresh[spent] == s.refresh[spent].(revokedAt := Some(now))
      && t.refresh[refreshId] == NewRow(s, r.value.user.id, now)
      && t.refresh.Keys == s.refresh.Keys + {refreshId}
      && forall id | id in s.refresh && id != spent :: t.refresh[id] == s.refresh[id]
  {
    hide ActiveRefresh, Sign;
  }

  lemma SameSigning(p: Primitives, s: AuthState, t: AuthState)
    requires t.keys == s.keys && t.config == s.config
    ensures forall payload :: Sign(p, t, payload) == Sign(p, s, payload)
  {
  }

  /** What a successful invitation leaves behind: one pending user, one open invite found by its token, one role. */
  lemma InviteLeaves(p: Primitives, s: AuthState, input: InviteInput, rawToken: string, userId: Id, inviteId: Id,
                     roleId: Id, now: Instant)
    requires userId !in s.users && inviteId !in s.invites
    requires InviteUser(p, s, input, rawToken, userId, inviteId, roleId, now).1.Ok?
    ensures var (t, r) := InviteUser(p, s, input, rawToken, userId, inviteId, roleId, now);
      && t.users == s.users[userId := UserRow(input.email, input.name, Viewer, Invited, "")]
      && t.tables.roles == s.tables.roles + [RoleRow(roleId, userId, input.workspaceId, input.role)]
      && t.keys == s.keys && t.config == s.config && t.refresh == s.refresh
      && t.invites.Keys == s.invites.Keys + {inviteId}
      && t.invites[inviteId] == InviteRow(userId, p.tokenHash(rawToken), r.value.expiresAt, None, now)
      && FoundBy(p, t, rawToken, inviteId)
  {
  }

  ghost predicate FoundBy(p: Primitives, s: AuthState, token: string, inviteId: Id) {
    forall id | id in s.invites && s.invites[id].tokenHash == p.tokenHash(token) :: id == inviteId
  }

  /** Accepting an open invite of a pending user: the password is set, the invite closed, a session opened. */
  lemma PendingInviteAccepted(p: Primitives, s: AuthState, inviteId: Id, token: string, password: string, salt: string,
                              refreshId: Id, jti: string, now: Instant)
    requires Lawful(p) && KeysOk(p, s) && inviteId in s.invites && FoundBy(p, s, token, inviteId)
    requires var i := s.invites[inviteId];
      && i.tokenHash == p.tokenHash(token) && i.acceptedAt.None? && now <= i.expiresAt
      && i.userId in s.users && s.users[i.userId].status == Invited
    requires p.hashPassword(password, salt).Some?
    ensures var (t, r) := AcceptInvite(p, s, token, password, salt, refreshId, jti, now);
      var user := s.invites[inviteId].userId;
      && r.Ok? && r.value.user.id == user && r.value.user.email == s.users[user].email
      && t.users == s.users[user := s.users[user].(status := Active,
                                                   passwordHash := p.hashPassword(password, salt).value)]
      && t.invites == s.invites[inviteId := s.invites[inviteId].(acceptedAt := Some(now))]
      && t.refresh == s.refresh[refreshId := NewRow(s, user, now)]
      && t == s.(users := t.users, invites := t.invites, refresh := t.refresh, log := t.log)
  {
    hide KeysOk, OpenSession, Lawful;
    assert InviteByHash(s.invites, p.tokenHash(token)) == Some(inviteId);
    var s1 := SetInvitedPassword(p, s, token, password, salt, now).0;
    var s2 := s1.(invites := s1.invites[inviteId := s1.invites[inviteId].(acceptedAt := Some(now))]);
    SameKeysOk(p, s, s2);
    var user := Person(s2, s.invites[inviteId].userId);
    SessionOpens(p, s2, user, refreshId, jti, now);
    OpenSessionTouches(p, s2, user, refreshId, jti, now);
  }

  lemma PasswordChecks(p: Primitives, password: string, salt: string)
    requires Lawful(p) && p.hashPassword(password, salt).Some?
    ensures p.verifyPassword(password, p.hashPassword(password, salt).value)
  {
  }

  /** An accepted invite is not accepted again, by any password at any time. */
  lemma AcceptedInviteIsClosed(p: Primitives, s: AuthState, inviteId: Id, token: string, password: string, salt: string,
                               refreshId: Id, jti: string, now: Instant)
    requires FoundBy(p, s, token, inviteId) && inviteId in s.invites && s.invites[inviteId].acceptedAt.Some?
    ensures AcceptInvite(p, s, token, password, salt, refreshId, jti, now) == (s, Err(Unauthorized))
  {
  }

  /** The token of an invitation's link works until it expires, for the invited user, and only once. */
  lemma InviteCanBeAccepted(p: Primitives, s: AuthState, input: InviteInput, rawToken: string, userId: Id,
                            inviteId: Id, roleId: Id,
                            now: Instant, password: string, salt: string, refreshId: Id, jti: string, later: Instant)
    requires Lawful(p) && Inv(p, s) && userId !in s.users && inviteId !in s.invites
    requires InviteUser(p, s, input, rawToken, userId, inviteId, roleId, now).1.Ok?
    requires later <= InviteUser(p, s, input, rawToken, userId, inviteId, roleId, now).1.value.expiresAt
    requires p.hashPassword(password, salt).Some?
    ensures var t := InviteUser(p, s, input, rawToken, userId, inviteId, roleId, now).0;
      var (u, r) := AcceptInvite(p, t, rawToken, password, salt, refreshId, jti, later);
      && userId in t.users && t.users[userId].status == Invited
      && t.tables.roles == s.tables.roles + [RoleRow(roleId, userId, input.workspaceId, input.role)]
      && r.Ok? && r.value.user.id == userId && r.value.user.email == input.email
      && userId in u.users && u.users[userId].status == Active
      && p.verifyPassword(password, u.users[userId].passwordHash)
      && AcceptInvite(p, u, rawToken, password, salt, refreshId, jti, later) == (u, Err(Unauthorized))
  {
    hide *;
    KeysOfInv(p, s);
    PasswordChecks(p, password, salt);
    InviteLeaves(p, s, input, rawToken, userId, inviteId, roleId, now);
    var t := InviteUser(p, s, input, rawToken, userId, inviteId, roleId, now).0;
    SameKeysOk(p, s, t);
    PendingInviteAccepted(p, t, inviteId, rawToken, password, salt, refreshId, jti, later);
    var u := AcceptInvite(p, t, rawToken, password, salt, refreshId, jti, later).0;
    AcceptedInviteIsClosed(p, u, inviteId, rawToken, password, salt, refreshId, jti, later);
  }

  lemma OpenSessionTouches(p: Primitives, s: AuthState, user: User, refreshId: Id, jti: string, now: Instant)
    ensures var (t, r) := OpenSession(p, s, user, refreshId, jti, now);
      && t == s.(log := t.log,
                 refresh := s.refresh[refreshId := NewRow(s, user.id, now)])
      && (r.Ok? ==> r.value.user == user)
  {
    hide Sign;
  }
}
