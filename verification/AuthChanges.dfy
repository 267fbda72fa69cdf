/**
  * The few kinds of update the calls are made of, each with the checks the calls have made by
  * then. Every call is a sequence of at most three; what each update keeps, every run keeps.
  */
module AuthChanges {
  import opened Wrappers
  import opened Models
  import opened AuthModel
  import opened AuthSteps
  import opened AuthRuns
  import Tenancy

  datatype Change =
    | Open(refreshId: Id, row: RefreshRow)
    | Rotate(old_: Id, now: Instant, new_: Id, row: RefreshRow)
    | Close(refreshId: Id, now: Instant)
    | AddInvited(userId: Id, user: UserRow, inviteId: Id, invite: InviteRow, role: RoleRow)
    | SetPassword(inviteId: Id, hash: string)
    | MarkAccepted(inviteId: Id, now: Instant)
    | SetStatus(id: Id, status: UserStatus)
    | SetRole(id: Id, newRole: Role)
    | PutApiToken(tokenId: Id, token: ApiTokenRow)
    | SyncTo(config: Config, keyId: Id, now: Instant)
    | AddAdmin(id: Id, admin: UserRow)
    | ChangeTables(vault: Tenancy.Vault, action: Tenancy.Action)

  ghost predicate Possible(p: Primitives, s: AuthState, c: Change) {
    match c
    case Open(id, row) => id !in s.refresh && row.userId in s.users && row.revokedAt.None?
    case Rotate(old_, _, new_, row) =>
      && old_ in s.refresh && s.refresh[old_].revokedAt.None?
      && new_ !in s.refresh && row.userId == s.refresh[old_].userId && row.userId in s.users && row.revokedAt.None?
    case Close(id, _) => id in s.refresh && s.refresh[id].revokedAt.None?
    case AddInvited(userId, user, inviteId, invite, role) =>
      && userId !in s.users && inviteId !in s.invites
      && UserByEmail(s.users, user.email).None? && InviteByHash(s.invites, invite.tokenHash).None?
      && user.role == Viewer && user.status == Invited && user.passwordHash == ""
      && invite.userId == userId && invite.acceptedAt.None?
      && role.userId == userId && role.workspaceId in s.tables.workspaces
    case SetPassword(inviteId, hash) =>
      && inviteId in s.invites && s.invites[inviteId].acceptedAt.None?
      && s.invites[inviteId].userId in s.users && s.users[s.invites[inviteId].userId].status == Invited
      && hash != ""
    case MarkAccepted(inviteId, _) =>
      && inviteId in s.invites && s.invites[inviteId].userId in s.users
      && s.users[s.invites[inviteId].userId].passwordHash != ""
    case SetStatus(id, status) =>
      && id in s.users
      && match status {
           case Disabled =>
             s.users[id].status != Disabled && (s.users[id].role == SuperAdmin ==> |ActiveAdmins(s.users)| > 1)
           case Active => s.users[id].status == Disabled && s.users[id].passwordHash != ""
           case Invited => false
         }
    case SetRole(id, role) =>
      && id in s.users
      && (s.users[id].role == SuperAdmin && role != SuperAdmin && s.users[id].status == Active
          ==> |ActiveAdmins(s.users)| > 1)
    case PutApiToken(id, token) =>
      if id in s.apiTokens then
        && token.(revokedAt := None, lastUsedAt := None) == s.apiTokens[id].(revokedAt := None, lastUsedAt := None)
        && (s.apiTokens[id].revokedAt.Some? ==> token.revokedAt == s.apiTokens[id].revokedAt)
      else ApiTokenByHash(s.apiTokens, token.tokenHash).None?
    case SyncTo(config, keyId, _) => Enabled(p, s, DoBootstrap(config, keyId, 0, "", 0))
    case AddAdmin(id, admin) =>
      s.users == map[] && admin.role == SuperAdmin && admin.status == Active && admin.passwordHash != ""
    case ChangeTables(_, action) => Tenancy.Enabled(s.tables, action) && !action.AddRole?
  }

  ghost function Apply(p: Primitives, s: AuthState, c: Change): AuthState
    requires Possible(p, s, c)
  {
    match c
    case Open(id, row) => Happened(s.(refresh := s.refresh[id := row]), Opened(id, row.userId))
    case Rotate(old_, now, new_, row) =>
      Happened(RevokeRefresh(s.(refresh := s.refresh[new_ := row]), old_, now), Rotated(old_, new_))
    case Close(id, now) => RevokeRefresh(s, id, now)
    case AddInvited(userId, user, inviteId, invite, role) =>
      s.(users := s.users[userId := user], invites := s.invites[inviteId := invite],
         tables := Tenancy.GrantRole(s.tables, role))
    case SetPassword(inviteId, hash) =>
      var id := s.invites[inviteId].userId;
      s.(users := s.users[id := s.users[id].(status := Active, passwordHash := hash)])
    case MarkAccepted(inviteId, now) =>
      s.(invites := s.invites[inviteId := s.invites[inviteId].(acceptedAt := Some(now))])
    case SetStatus(id, status) => WithStatus(s, id, status)
    case SetRole(id, role) => WithRole(s, id, role)
    case PutApiToken(id, token) => s.(apiTokens := s.apiTokens[id := token])
    case SyncTo(config, keyId, now) =>
      s.(config := config, keys := SyncKeys(s.keys, p.readPublicKey(config.publicKeyPem).value, keyId, now))
    case AddAdmin(id, admin) => s.(users := map[id := admin])
    case ChangeTables(vault, action) => s.(tables := Tenancy.Next(s.tables, vault, action))
  }

  ghost predicate Reaches(p: Primitives, s: AuthState, changes: seq<Change>, t: AuthState)
    decreases |changes|
  {
    if changes == [] then t == s
    else Possible(p, s, changes[0]) && Reaches(p, Apply(p, s, changes[0]), changes[1..], t)
  }

  lemma Reach1(p: Primitives, s: AuthState, c: Change)
    requires Possible(p, s, c)
    ensures Reaches(p, s, [c], Apply(p, s, c))
  {
    assert [c][1..] == [];
  }

  lemma {:induction false} ReachMore(p: Primitives, s: AuthState, changes: seq<Change>, t: AuthState, c: Change)
    requires Reaches(p, s, changes, t) && Possible(p, t, c)
    ensures Reaches(p, s, changes + [c], Apply(p, t, c))
    decreases |changes|
  {
    if changes == [] {
      Reach1(p, s, c);
      assert changes + [c] == [c];
    } else {
      ReachMore(p, Apply(p, s, changes[0]), changes[1..], t, c);
      assert (changes + [c])[1..] == changes[1..] + [c];
    }
  }

  // ---------- every call is a few changes ----------

  lemma SessionChanges(p: Primitives, s: AuthState, user: User, refreshId: Id, jti: string, now: Instant)
    returns (c: Change)
    requires refreshId !in s.refresh && user.id in s.users
    ensures Possible(p, s, c) && OpenSession(p, s, user, refreshId, jti, now).0 == Apply(p, s, c)
  {
    c := Open(refreshId, RefreshRow(user.id, now, After(now, s.config.refreshTtlSeconds), None));
  }

  lemma RefreshChanges(p: Primitives, s: AuthState, token: string, refreshId: Id, jti: string, now: Instant)
    returns (changes: seq<Change>)
    requires refreshId !in s.refresh
    ensures Reaches(p, s, changes, RefreshSession(p, s, token, refreshId, jti, now).0)
  {
    hide Sign, SignBoth, VerifyRefresh;
    changes := [];
    var t := RefreshSession(p, s, token, refreshId, jti, now).0;
    if t != s {
      var id := ActiveRefresh(p, s, token, now).value;
      var row := RefreshRow(s.refresh[id].userId, now, After(now, s.config.refreshTtlSeconds), None);
      var c := Rotate(id, now, refreshId, row);
      assert t == Apply(p, s, c);
      Reach1(p, s, c);
      changes := [c];
    }
  }

  lemma AcceptChanges(p: Primitives, s: AuthState, token: string, password: string, salt: string,
                      now: Instant) returns (changes: seq<Change>)
    requires Lawful(p)
    ensures var r := SetInvitedPassword(p, s, token, password, salt, now);
      && Reaches(p, s, changes, r.0)
      && (r.1.Ok? ==> Possible(p, r.0, MarkAccepted(r.1.value, now)))
  {
    changes := [];
    var r := SetInvitedPassword(p, s, token, password, salt, now);
    if r.1.Ok? {
      var c := SetPassword(r.1.value, p.hashPassword(password, salt).value);
      assert r.0 == Apply(p, s, c);
      Reach1(p, s, c);
      changes := [c];
    }
  }

  lemma FullAcceptChanges(p: Primitives, s: AuthState, token: string, password: string, salt: string,
                          refreshId: Id, jti: string, now: Instant) returns (changes: seq<Change>)
    requires Lawful(p) && refreshId !in s.refresh
    ensures Reaches(p, s, changes, AcceptInvite(p, s, token, password, salt, refreshId, jti, now).0)
  {
    hide Lawful, SetInvitedPassword, OpenSession, Reaches;
    changes := AcceptChanges(p, s, token, password, salt, now);
    var (s1, begun) := SetInvitedPassword(p, s, token, password, salt, now);
    if begun.Ok? {
      var mark := MarkAccepted(begun.value, now);
      ReachMore(p, s, changes, s1, mark);
      changes := changes + [mark];
      var s2 := Apply(p, s1, mark);
      var userId := s1.invites[begun.value].userId;
      var c := SessionChanges(p, s2, Person(s2, userId), refreshId, jti, now);
      ReachMore(p, s, changes, s2, c);
      changes := changes + [c];
    }
  }

  lemma InviteChanges(p: Primitives, s: AuthState, input: InviteInput, rawToken: string,
                      userId: Id, inviteId: Id, roleId: Id, now: Instant) returns (changes: seq<Change>)
    requires userId !in s.users && inviteId !in s.invites
    ensures Reaches(p, s, changes, InviteUser(p, s, input, rawToken, userId, inviteId, roleId, now).0)
  {
    changes := [];
    var r := InviteUser(p, s, input, rawToken, userId, inviteId, roleId, now);
    if r.1.Ok? {
      var c := AddInvited(userId, r.0.users[userId], inviteId, r.0.invites[inviteId],
                          RoleRow(roleId, userId, input.workspaceId, input.role));
      Reach1(p, s, c);
      changes := [c];
    }
  }

  lemma BootstrapChanges(p: Primitives, s: AuthState, config: Config, keyId: Id, adminId: Id, salt: string,
                         now: Instant)
    returns (changes: seq<Change>)
    requires Lawful(p) && Enabled(p, s, DoBootstrap(config, keyId, adminId, salt, now))
    ensures Reaches(p, s, changes, Bootstrap(p, s, config, keyId, adminId, salt, now).0)
  {
    hide SyncKeys;
    var sync := SyncTo(config, keyId, now);
    Reach1(p, s, sync);
    changes := [sync];
    if s.users == map[] && p.hashPassword(config.adminPassword, salt).Some? {
      var s1 := Apply(p, s, sync);
      var hash := p.hashPassword(config.adminPassword, salt).value;
      var add := AddAdmin(adminId, UserRow(config.adminEmail, config.adminName, SuperAdmin, Active, hash));
      ReachMore(p, s, changes, s1, add);
      changes := changes + [add];
    }
  }

  lemma BearerChange(p: Primitives, s: AuthState, token: string, now: Instant)
    ensures AuthenticateBearer(p, s, token, now).0 != s ==>
      exists c :: Possible(p, s, c) && AuthenticateBearer(p, s, token, now).0 == Apply(p, s, c)
  {
    hide VerifyAccess, Person;
    var t := AuthenticateBearer(p, s, token, now).0;
    if t != s {
      var used := ApiTokenByHash(s.apiTokens, p.tokenHash(token)).value;
      assert t == Apply(p, s, PutApiToken(used, t.apiTokens[used]));
    }
  }

  lemma ApiTokenChanges(p: Primitives, s: AuthState, user: User, name: string, random: string, id: Id, now: Instant)
    ensures id !in s.apiTokens && CreateApiToken(p, s, user, name, random, id, now).0 != s ==>
      exists c :: Possible(p, s, c) && CreateApiToken(p, s, user, name, random, id, now).0 == Apply(p, s, c)
    ensures RevokeApiToken(s, user, id, now).0 != s ==>
      exists c :: Possible(p, s, c) && RevokeApiToken(s, user, id, now).0 == Apply(p, s, c)
  {
    var created := CreateApiToken(p, s, user, name, random, id, now).0;
    if created != s && id !in s.apiTokens {
      assert created == Apply(p, s, PutApiToken(id, created.apiTokens[id]));
    }
    var revoked := RevokeApiToken(s, user, id, now).0;
    if revoked != s {
      assert revoked == Apply(p, s, PutApiToken(id, revoked.apiTokens[id]));
    }
  }

  lemma StatusChanges(p: Primitives, s: AuthState, id: Id)
    ensures DisableUser(s, id).0 != s ==>
      exists c :: Possible(p, s, c) && DisableUser(s, id).0 == Apply(p, s, c)
    ensures ReactivateUser(s, id).0 != s ==>
      exists c :: Possible(p, s, c) && ReactivateUser(s, id).0 == Apply(p, s, c)
  {
    hide Person, ActiveAdmins;
    if DisableUser(s, id).0 != s {
      var c := SetStatus(id, Disabled);
      assert Possible(p, s, c) && DisableUser(s, id).0 == Apply(p, s, c);
    }
    if ReactivateUser(s, id).0 != s {
      var c := SetStatus(id, Active);
      assert Possible(p, s, c) && ReactivateUser(s, id).0 == Apply(p, s, c);
    }
  }

  lemma RoleChanges(p: Primitives, s: AuthState, id: Id, role: Role)
    ensures ChangeUserRole(s, id, role).0 != s ==>
      exists c :: Possible(p, s, c) && ChangeUserRole(s, id, role).0 == Apply(p, s, c)
  {
    hide Person, ActiveAdmins;
    if ChangeUserRole(s, id, role).0 != s {
      var c := SetRole(id, role);
      assert Possible(p, s, c) && ChangeUserRole(s, id, role).0 == Apply(p, s, c);
    }
  }

  lemma AtMostOne(p: Primitives, s: AuthState, t: AuthState) returns (changes: seq<Change>)
    requires t != s ==> exists c :: Possible(p, s, c) && t == Apply(p, s, c)
    ensures Reaches(p, s, changes, t)
  {
    changes := [];
    if t != s {
      var c :| Possible(p, s, c) && t == Apply(p, s, c);
      Reach1(p, s, c);
      changes := [c];
    }
  }

  lemma LoginChange(p: Primitives, s: AuthState, email: string, password: string, refreshId: Id, jti: string,
                    now: Instant)
    requires refreshId !in s.refresh
    ensures Login(p, s, email, password, refreshId, jti, now).0 != s ==>
      exists c :: Possible(p, s, c) && Login(p, s, email, password, refreshId, jti, now).0 == Apply(p, s, c)
  {
    var found := UserByEmail(s.users, email);
    if found.Some? {
      var c := SessionChanges(p, s, Person(s, found.value), refreshId, jti, now);
    }
  }

  lemma LogoutChange(p: Primitives, s: AuthState, token: string, now: Instant)
    ensures Logout(p, s, token, now).0 != s ==>
      exists c :: Possible(p, s, c) && Logout(p, s, token, now).0 == Apply(p, s, c)
  {
    hide VerifyRefresh;
    var id := ActiveRefresh(p, s, token, now);
    if id.Ok? {
      assert Logout(p, s, token, now).0 == Apply(p, s, Close(id.value, now));
    }
  }

  /** Every enabled call is a short sequence of possible changes. */
  lemma NextIsChanges(p: Primitives, s: AuthState, a: Action) returns (changes: seq<Change>)
    requires Lawful(p) && Enabled(p, s, a)
    ensures Reaches(p, s, changes, Next(p, s, a))
  {
    hide Lawful, Reaches, Possible, Apply, Login, RefreshSession, AcceptInvite, SetInvitedPassword, InviteUser,
      Bootstrap, Logout, AuthenticateBearer, CreateApiToken, RevokeApiToken, DisableUser, ReactivateUser,
      ChangeUserRole;
    match a {
      case DoBootstrap(config, keyId, adminId, salt, now) =>
        changes := BootstrapChanges(p, s, config, keyId, adminId, salt, now);
      case DoLogin(email, password, refreshId, jti, now) =>
        LoginChange(p, s, email, password, refreshId, jti, now);
        changes := AtMostOne(p, s, Next(p, s, a));
      case DoInvite(input, rawToken, userId, inviteId, roleId, now) =>
        changes := InviteChanges(p, s, input, rawToken, userId, inviteId, roleId, now);
      case DoAccept(token, password, salt, refreshId, jti, now) =>
        changes := FullAcceptChanges(p, s, token, password, salt, refreshId, jti, now);
      case DoAcceptInterrupted(token, password, salt, now) =>
        changes := AcceptChanges(p, s, token, password, salt, now);
      case DoRefresh(token, refreshId, jti, now) =>
        changes := RefreshChanges(p, s, token, refreshId, jti, now);
      case DoLogout(token, now) =>
        LogoutChange(p, s, token, now);
        changes := AtMostOne(p, s, Next(p, s, a));
      case DoAuthenticate(token, now) =>
        BearerChange(p, s, token, now);
        changes := AtMostOne(p, s, Next(p, s, a));
      case DoDisable(id) =>
        StatusChanges(p, s, id);
        changes := AtMostOne(p, s, Next(p, s, a));
      case DoReactivate(id) =>
        StatusChanges(p, s, id);
        changes := AtMostOne(p, s, Next(p, s, a));
      case DoChangeRole(id, role) =>
        RoleChanges(p, s, id, role);
        changes := AtMostOne(p, s, Next(p, s, a));
      case DoCreateApiToken(user, name, random, id, now) =>
        ApiTokenChanges(p, s, user, name, random, id, now);
        changes := AtMostOne(p, s, Next(p, s, a));
      case DoRevokeApiToken(user, tokenId, now) =>
        ApiTokenChanges(p, s, user, "", "", tokenId, now);
        changes := AtMostOne(p, s, Next(p, s, a));
      case DoTenant(vault, action) =>
        changes := TenantChanges(p, s, vault, action);
    }
  }

  lemma TenantChanges(p: Primitives, s: AuthState, vault: Tenancy.Vault, action: Tenancy.Action)
    returns (changes: seq<Change>)
    requires Tenancy.Enabled(s.tables, action) && !action.AddRole?
    ensures Reaches(p, s, changes, s.(tables := Tenancy.Next(s.tables, vault, action)))
  {
    changes := [ChangeTables(vault, action)];
    Reach1(p, s, changes[0]);
  }

  // ---------- every later state extends the earlier ones ----------

  lemma UsersExtended(p: Primitives, s: AuthState, c: Change)
    requires Possible(p, s, c)
    ensures UsersExtend(s.users, Apply(p, s, c).users)
  {
    hide SyncKeys, ActiveAdmins, UserByEmail, InviteByHash, ApiTokenByHash;
  }

  lemma InvitesExtended(p: Primitives, s: AuthState, c: Change)
    requires Possible(p, s, c)
    ensures InvitesExtend(s.invites, Apply(p, s, c).invites)
  {
    hide SyncKeys, ActiveAdmins, UserByEmail, InviteByHash, ApiTokenByHash;
  }

  lemma RefreshExtended(p: Primitives, s: AuthState, c: Change)
    requires Possible(p, s, c)
    ensures RefreshExtends(s.refresh, Apply(p, s, c).refresh)
  {
    hide SyncKeys, ActiveAdmins, UserByEmail, InviteByHash, ApiTokenByHash;
  }

  lemma ApiTokensExtended(p: Primitives, s: AuthState, c: Change)
    requires Possible(p, s, c)
    ensures ApiTokensExtend(s.apiTokens, Apply(p, s, c).apiTokens)
  {
    hide SyncKeys, ActiveAdmins, UserByEmail, InviteByHash;
  }

  lemma KeysExtended(p: Primitives, s: AuthState, c: Change)
    requires Possible(p, s, c)
    ensures KeysExtend(s.keys, Apply(p, s, c).keys)
  {
    hide ActiveAdmins, UserByEmail, InviteByHash, ApiTokenByHash;
  }

  lemma ChangeExtends(p: Primitives, s: AuthState, c: Change)
    requires Possible(p, s, c)
    ensures Extends(s, Apply(p, s, c))
  {
    hide UsersExtend, InvitesExtend, RefreshExtends, ApiTokensExtend, KeysExtend, SyncKeys, ActiveAdmins;
    UsersExtended(p, s, c);
    InvitesExtended(p, s, c);
    RefreshExtended(p, s, c);
    ApiTokensExtended(p, s, c);
    KeysExtended(p, s, c);
  }

  lemma {:induction false} ChangesExtend(p: Primitives, s: AuthState, changes: seq<Change>, t: AuthState)
    requires Reaches(p, s, changes, t)
    ensures Extends(s, t)
    decreases |changes|
  {
    hide Possible, Apply, Extends;
    if changes == [] {
      ExtendsItself(s);
    } else {
      var next := Apply(p, s, changes[0]);
      ChangeExtends(p, s, changes[0]);
      ChangesExtend(p, next, changes[1..], t);
      ExtendsOn(s, next, t);
    }
  }

  /** Every call only adds: rows stay, ends stay ended, keys keep their material. */
  lemma NextExtends(p: Primitives, s: AuthState, a: Action)
    requires Lawful(p) && Enabled(p, s, a)
    ensures Extends(s, Next(p, s, a))
  {
    hide Next;
    var changes := NextIsChanges(p, s, a);
    ChangesExtend(p, s, changes, Next(p, s, a));
  }

  lemma RowsExtendOn(s: AuthState, t: AuthState, u: AuthState)
    requires RefreshExtends(s.refresh, t.refresh) && RefreshExtends(t.refresh, u.refresh)
    requires ApiTokensExtend(s.apiTokens, t.apiTokens) && ApiTokensExtend(t.apiTokens, u.apiTokens)
    ensures RefreshExtends(s.refresh, u.refresh) && ApiTokensExtend(s.apiTokens, u.apiTokens)
  {
  }

  lemma PeopleExtendOn(s: AuthState, t: AuthState, u: AuthState)
    requires InvitesExtend(s.invites, t.invites) && InvitesExtend(t.invites, u.invites)
    requires UsersExtend(s.users, t.users) && UsersExtend(t.users, u.users)
    ensures InvitesExtend(s.invites, u.invites) && UsersExtend(s.users, u.users)
  {
  }

  lemma ExtendsOn(s: AuthState, t: AuthState, u: AuthState)
    requires Extends(s, t) && Extends(t, u)
    ensures Extends(s, u)
  {
    assert KeysExtend(s.keys, u.keys);
    hide RefreshExtends, ApiTokensExtend, InvitesExtend, UsersExtend, KeysExtend;
    RowsExtendOn(s, t, u);
    PeopleExtendOn(s, t, u);
  }

  lemma ExtendsItself(s: AuthState)
    ensures Extends(s, s)
  {
  }

  /** Between any two states of a run, the later one extends the earlier. */
  lemma {:induction false} RunExtends(p: Primitives, states: seq<AuthState>, actions: seq<Action>, i: nat, j: nat)
    requires Lawful(p) && IsRun(p, states, actions) && i <= j < |states|
    ensures Extends(states[i], states[j])
    decreases j
  {
    hide Lawful, Next, Extends, Started;
    if i == j {
      ExtendsItself(states[i]);
    } else {
      RunExtends(p, states, actions, i, j - 1);
      NextExtends(p, states[j - 1], actions[j - 1]);
      ExtendsOn(states[i], states[j - 1], states[j]);
    }
  }
}
