/** When each call of the authentication service succeeds, whom it answers, and all that it changes. */
module AuthEffects {
  import opened Wrappers
  import opened Models
  import opened AuthModel
  import opened AuthSteps
  import opened AuthRuns
  import opened AuthChanges
  import opened AuthInvariants
  import opened AuthSessions
  import opened AuthTokens
  import TenancyEffects

  // ---------- whom a call answers ----------

  /** How many role rows give the user this role in this workspace. */
  ghost function Grants(roles: seq<RoleRow>, userId: Id, role: WorkspaceRole): nat {
    |set i | 0 <= i < |roles| && roles[i].userId == userId
             && roles[i].workspaceId == role.workspaceId && roles[i].role == role.role|
  }

  /** The user is as stored, with no workspace roles if a super admin and exactly the granted ones if not. */
  ghost predicate Describes(s: AuthState, user: User) {
    && user.id in s.users
    && user.email == s.users[user.id].email && user.name == s.users[user.id].name
    && user.role == s.users[user.id].role && user.status == s.users[user.id].status
    && (user.role == SuperAdmin ==> user.workspaceRoles == [])
    && (user.role != SuperAdmin ==>
          forall role :: multiset(user.workspaceRoles)[role] == Grants(s.tables.roles, user.id, role))
  }

  lemma {:induction false} RolesOfAppend(roles: seq<RoleRow>, row: RoleRow, userId: Id)
    ensures RolesOf(roles + [row], userId)
         == RolesOf(roles, userId) + (if row.userId == userId then [WorkspaceRole(row.workspaceId, row.role)] else [])
    decreases |roles|
  {
    if roles == [] {
      assert roles + [row] == [row] && [row][1..] == [];
    } else {
      assert (roles + [row])[1..] == roles[1..] + [row];
      RolesOfAppend(roles[1..], row, userId);
    }
  }

  lemma GrantsAppend(roles: seq<RoleRow>, row: RoleRow, userId: Id, role: WorkspaceRole)
    ensures Grants(roles + [row], userId, role)
         == Grants(roles, userId, role)
            + if row.userId == userId && row.workspaceId == role.workspaceId && row.role == role.role then 1 else 0
  {
    var all := roles + [row];
    var before := set i | 0 <= i < |roles| && roles[i].userId == userId
                          && roles[i].workspaceId == role.workspaceId && roles[i].role == role.role;
    var after := set i | 0 <= i < |all| && all[i].userId == userId
                         && all[i].workspaceId == role.workspaceId && all[i].role == role.role;
    if row.userId == userId && row.workspaceId == role.workspaceId && row.role == role.role {
      assert after == before + {|roles|};
    } else {
      assert after == before;
    }
  }

  lemma {:induction false} RolesAreGrants(roles: seq<RoleRow>, userId: Id, role: WorkspaceRole)
    ensures multiset(RolesOf(roles, userId))[role] == Grants(roles, userId, role)
    decreases |roles|
  {
    if roles != [] {
      var front, row := roles[..|roles| - 1], roles[|roles| - 1];
      assert roles == front + [row];
      RolesAreGrants(front, userId, role);
      RolesOfAppend(front, row, userId);
      GrantsAppend(front, row, userId, role);
    }
  }

  lemma PersonIsDescribed(s: AuthState, id: Id)
    requires id in s.users
    ensures Person(s, id).id == id && Describes(s, Person(s, id))
  {
    hide RolesOf, Grants;
    forall role: WorkspaceRole
      ensures multiset(RolesOf(s.tables.roles, id))[role] == Grants(s.tables.roles, id, role)
    {
      RolesAreGrants(s.tables.roles, id, role);
    }
  }

  /** Only users, roles and their states matter to a description. */
  lemma SameDescription(s: AuthState, t: AuthState, user: User)
    requires Describes(s, user) && t.users == s.users && t.tables.roles == s.tables.roles
    ensures Describes(t, user)
  {
  }

  /** Whoever a bearer credential is accepted for is answered as stored. */
  lemma BearerIsDescribed(p: Primitives, s: AuthState, token: string, now: Instant)
    requires AuthenticateBearer(p, s, token, now).1.Ok?
    ensures var (t, r) := AuthenticateBearer(p, s, token, now);
      Describes(s, r.value) && Describes(t, r.value) && r.value.status == Active
  {
    hide VerifyAccess, Describes, Person;
    var (t, r) := AuthenticateBearer(p, s, token, now);
    AcceptedBearerIsActive(p, s, token, now);
    PersonIsDescribed(s, r.value.id);
    assert t.users == s.users && t.tables == s.tables;
    SameDescription(s, t, r.value);
    DescribedStatus(s, r.value);
  }

  lemma DescribedStatus(s: AuthState, user: User)
    requires Describes(s, user)
    ensures user.id in s.users && user.status == s.users[user.id].status && user.email == s.users[user.id].email
    ensures user.role == s.users[user.id].role && user.name == s.users[user.id].name
  {
  }

  lemma SessionKeepsUser(p: Primitives, s: AuthState, user: User, refreshId: Id, jti: string, now: Instant)
    requires Describes(s, user)
    ensures var (t, r) := OpenSession(p, s, user, refreshId, jti, now);
      r.Ok? ==> r.value.user == user && Describes(t, r.value.user)
  {
    hide Describes;
    OpenSessionTouches(p, s, user, refreshId, jti, now);
    SameDescription(s, OpenSession(p, s, user, refreshId, jti, now).0, user);
  }

  lemma LoginIsDescribed(p: Primitives, s: AuthState, email: string, password: string, refreshId: Id, jti: string,
                         now: Instant)
    requires Login(p, s, email, password, refreshId, jti, now).1.Ok?
    ensures var (t, r) := Login(p, s, email, password, refreshId, jti, now);
      Describes(t, r.value.user) && r.value.user.email == email && r.value.user.status == Active
  {
    hide OpenSession, Describes, Person;
    var id := UserByEmail(s.users, email).value;
    PersonIsDescribed(s, id);
    DescribedStatus(s, Person(s, id));
    SessionKeepsUser(p, s, Person(s, id), refreshId, jti, now);
  }

  lemma AcceptIsDescribed(p: Primitives, s: AuthState, token: string, password: string, salt: string,
                          refreshId: Id, jti: string, now: Instant)
    requires AcceptInvite(p, s, token, password, salt, refreshId, jti, now).1.Ok?
    ensures var (t, r) := AcceptInvite(p, s, token, password, salt, refreshId, jti, now);
      Describes(t, r.value.user) && r.value.user.status == Active
  {
    hide OpenSession, Describes, Person;
    var (s1, begun) := SetInvitedPassword(p, s, token, password, salt, now);
    var s2 := s1.(invites := s1.invites[begun.value := s1.invites[begun.value].(acceptedAt := Some(now))]);
    var id := s1.invites[begun.value].userId;
    PersonIsDescribed(s2, id);
    DescribedStatus(s2, Person(s2, id));
    SessionKeepsUser(p, s2, Person(s2, id), refreshId, jti, now);
  }

  lemma RefreshIsDescribed(p: Primitives, s: AuthState, token: string, refreshId: Id, jti: string, now: Instant)
    requires refreshId !in s.refresh && RefreshSession(p, s, token, refreshId, jti, now).1.Ok?
    ensures var (t, r) := RefreshSession(p, s, token, refreshId, jti, now);
      Describes(t, r.value.user) && r.value.user.status == Active
  {
    hide Describes, Person, ActiveRefresh, Sign;
    RefreshRotates(p, s, token, refreshId, jti, now);
    var (t, r) := RefreshSession(p, s, token, refreshId, jti, now);
    PersonIsDescribed(s, r.value.user.id);
    DescribedStatus(s, r.value.user);
    SameDescription(s, t, r.value.user);
  }

  // ---------- whom the roles let in ----------

  lemma GrantedIff(roles: seq<RoleRow>, userId: Id, role: WorkspaceRole)
    ensures Grants(roles, userId, role) > 0 <==>
      exists i :: 0 <= i < |roles| && roles[i].userId == userId && roles[i].workspaceId == role.workspaceId
                  && roles[i].role == role.role
  {
    var matching := set i | 0 <= i < |roles| && roles[i].userId == userId
                            && roles[i].workspaceId == role.workspaceId && roles[i].role == role.role;
    if i :| 0 <= i < |roles| && roles[i].userId == userId && roles[i].workspaceId == role.workspaceId
            && roles[i].role == role.role {
      assert i in matching;
    }
  }

  /** A role row of the user in the workspace. */
  ghost predicate HasRow(roles: seq<RoleRow>, userId: Id, workspaceId: Id) {
    exists i :: 0 <= i < |roles| && roles[i].userId == userId && roles[i].workspaceId == workspaceId
  }

  ghost predicate HasAdminRow(roles: seq<RoleRow>, userId: Id, workspaceId: Id) {
    exists i :: 0 <= i < |roles| && roles[i].userId == userId && roles[i].workspaceId == workspaceId
                && roles[i].role == Admin
  }

  /**
    * A described user may access a workspace exactly as super admin or with a row, and administer it
    * with an admin row.
    */
  lemma DescribedAccess(s: AuthState, user: User, workspaceId: Id)
    requires Describes(s, user)
    ensures CanAccessWorkspace(user, workspaceId)
       <==> s.users[user.id].role == SuperAdmin || HasRow(s.tables.roles, user.id, workspaceId)
    ensures CanAdministerWorkspace(user, workspaceId)
       <==> s.users[user.id].role == SuperAdmin || HasAdminRow(s.tables.roles, user.id, workspaceId)
  {
    if user.role != SuperAdmin {
      TenancyEffects.AccessIff(user, workspaceId);
      forall role: Role
        ensures WorkspaceRole(workspaceId, role) in user.workspaceRoles <==>
          exists i :: 0 <= i < |s.tables.roles| && s.tables.roles[i].userId == user.id
                      && s.tables.roles[i].workspaceId == workspaceId && s.tables.roles[i].role == role
      {
        GrantedIff(s.tables.roles, user.id, WorkspaceRole(workspaceId, role));
        assert multiset(user.workspaceRoles)[WorkspaceRole(workspaceId, role)]
            == Grants(s.tables.roles, user.id, WorkspaceRole(workspaceId, role));
      }
      if i :| 0 <= i < |s.tables.roles| && s.tables.roles[i].userId == user.id
              && s.tables.roles[i].workspaceId == workspaceId {
        assert WorkspaceRole(workspaceId, s.tables.roles[i].role) in user.workspaceRoles;
      }
    }
  }

  /** The role row a call grants, if it is an invitation that succeeds. */
  ghost function GrantedBy(p: Primitives, s: AuthState, a: Action): seq<RoleRow> {
    if a.DoInvite? && InviteUser(p, s, a.input, a.rawToken, a.userId, a.inviteId, a.roleId, a.now).1.Ok?
    then [RoleRow(a.roleId, a.userId, a.input.workspaceId, a.input.role)] else []
  }

  ghost function Granted(p: Primitives, states: seq<AuthState>, actions: seq<Action>, n: nat): seq<RoleRow>
    requires n <= |actions| <= |states|
  {
    if n == 0 then [] else Granted(p, states, actions, n - 1) + GrantedBy(p, states[n - 1], actions[n - 1])
  }

  ghost predicate SameRoles(s: AuthState, t: AuthState) {
    t.tables.roles == s.tables.roles
  }

  lemma SessionsLeaveRoles(p: Primitives, s: AuthState, a: Action)
    requires Enabled(p, s, a) && (a.DoLogin? || a.DoAccept? || a.DoAcceptInterrupted? || a.DoRefresh? || a.DoLogout?)
    ensures SameRoles(s, Next(p, s, a))
  {
    hide Sign, SignBoth, ActiveRefresh, Person, UserByEmail, InviteByHash;
  }

  lemma OthersLeaveRoles(p: Primitives, s: AuthState, a: Action)
    requires Enabled(p, s, a)
    requires a.DoBootstrap? || a.DoAuthenticate? || a.DoCreateApiToken? || a.DoRevokeApiToken? || a.DoTenant?
    ensures SameRoles(s, Next(p, s, a))
  {
    hide SyncKeys, VerifyAccess, Person, ApiTokenByHash;
    if a.DoTenant? {
      TablesKeepRoles(s.tables, a.vault, a.action);
    }
  }

  lemma AdministrationLeavesRoles(s: AuthState, id: Id, role: Role)
    ensures SameRoles(s, DisableUser(s, id).0)
    ensures SameRoles(s, ReactivateUser(s, id).0)
    ensures SameRoles(s, ChangeUserRole(s, id, role).0)
  {
    hide ActiveAdmins, Person;
  }

  lemma InviteGrants(p: Primitives, s: AuthState, a: Action)
    requires Enabled(p, s, a) && a.DoInvite?
    ensures Next(p, s, a).tables.roles == s.tables.roles + GrantedBy(p, s, a)
  {
    hide UserByEmail, InviteByHash, CanAdministerWorkspace;
  }

  lemma NextGrants(p: Primitives, s: AuthState, a: Action)
    requires Enabled(p, s, a)
    ensures Next(p, s, a).tables.roles == s.tables.roles + GrantedBy(p, s, a)
  {
    match a {
      case DoInvite(_, _, _, _, _, _) => hide *; InviteGrants(p, s, a);
      case DoDisable(id) => hide DisableUser; AdministrationLeavesRoles(s, id, Viewer);
      case DoReactivate(id) => hide ReactivateUser; AdministrationLeavesRoles(s, id, Viewer);
      case DoChangeRole(id, role) => hide ChangeUserRole; AdministrationLeavesRoles(s, id, role);
      case _ =>
        hide Next, Enabled;
        if a.DoBootstrap? || a.DoAuthenticate? || a.DoCreateApiToken? || a.DoRevokeApiToken? || a.DoTenant? {
          OthersLeaveRoles(p, s, a);
        } else {
          SessionsLeaveRoles(p, s, a);
        }
    }
  }

  /** In every state of every run the role rows are those of the invitations so far, in order. */
  lemma {:induction false} RolesAreInvitations(p: Primitives, states: seq<AuthState>, actions: seq<Action>, n: nat)
    requires IsRun(p, states, actions) && n < |states|
    ensures states[n].tables.roles == Granted(p, states, actions, n)
  {
    hide Next, Enabled, Started, GrantedBy;
    if n == 0 {
      StartHasNoRoles(p, states[0]);
    } else {
      RolesAreInvitations(p, states, actions, n - 1);
      NextGrants(p, states[n - 1], actions[n - 1]);
    }
  }

  lemma StartHasNoRoles(p: Primitives, s: AuthState)
    requires Started(p, s)
    ensures s.tables.roles == []
  {
    hide SyncKeys;
    var config, keyId: Id, adminId: Id, salt, now: Instant :| IsStart(p, s, config, keyId, adminId, salt, now);
  }

  /** Some successful invitation among the first `n` calls was of this user to this workspace. */
  ghost predicate InvitedTo(p: Primitives, states: seq<AuthState>, actions: seq<Action>, n: nat, userId: Id,
                            workspaceId: Id)
    requires n <= |actions| <= |states|
  {
    exists k :: 0 <= k < n && actions[k].DoInvite? && actions[k].userId == userId
                && actions[k].input.workspaceId == workspaceId && GrantedBy(p, states[k], actions[k]) != []
  }

  lemma HasRowConcat(a: seq<RoleRow>, b: seq<RoleRow>, userId: Id, workspaceId: Id)
    ensures HasRow(a + b, userId, workspaceId) <==> HasRow(a, userId, workspaceId) || HasRow(b, userId, workspaceId)
  {
    var all := a + b;
    if i :| 0 <= i < |a| && a[i].userId == userId && a[i].workspaceId == workspaceId {
      assert all[i] == a[i];
    }
    if i :| 0 <= i < |b| && b[i].userId == userId && b[i].workspaceId == workspaceId {
      assert all[|a| + i] == b[i];
    }
    if i :| 0 <= i < |all| && all[i].userId == userId && all[i].workspaceId == workspaceId {
      assert if i < |a| then all[i] == a[i] else all[i] == b[i - |a|];
    }
  }

  lemma GrantedByRow(p: Primitives, s: AuthState, a: Action, userId: Id, workspaceId: Id)
    ensures HasRow(GrantedBy(p, s, a), userId, workspaceId) <==>
      a.DoInvite? && a.userId == userId && a.input.workspaceId == workspaceId && GrantedBy(p, s, a) != []
  {
    hide InviteUser;
    if GrantedBy(p, s, a) != [] {
      assert GrantedBy(p, s, a)[0].userId == a.userId;
    }
  }

  lemma {:induction false} GrantedIffInvited(p: Primitives, states: seq<AuthState>, actions: seq<Action>, n: nat,
                                             userId: Id, workspaceId: Id)
    requires n <= |actions| <= |states|
    ensures HasRow(Granted(p, states, actions, n), userId, workspaceId)
       <==> InvitedTo(p, states, actions, n, userId, workspaceId)
  {
    hide GrantedBy;
    if n == 0 {
      assert !HasRow([], userId, workspaceId);
    } else {
      var row := HasRow(Granted(p, states, actions, n), userId, workspaceId);
      GrantedIffInvited(p, states, actions, n - 1, userId, workspaceId);
      GrantedByRow(p, states[n - 1], actions[n - 1], userId, workspaceId);
      HasRowConcat(Granted(p, states, actions, n - 1), GrantedBy(p, states[n - 1], actions[n - 1]), userId,
                   workspaceId);
      hide HasRow;
      assert row <==> HasRow(Granted(p, states, actions, n - 1), userId, workspaceId)
                      || HasRow(GrantedBy(p, states[n - 1], actions[n - 1]), userId, workspaceId);
    }
  }

  /** Whoever authenticates in a state of a run may access a workspace exactly as super admin or when invited to it. */
  lemma AccessAcrossRun(p: Primitives, states: seq<AuthState>, actions: seq<Action>, n: nat, token: string,
                        now: Instant,
                        workspaceId: Id)
    requires IsRun(p, states, actions) && n < |states|
    requires AuthenticateBearer(p, states[n], token, now).1.Ok?
    ensures var user := AuthenticateBearer(p, states[n], token, now).1.value;
      && user.id in states[n].users
      && (CanAccessWorkspace(user, workspaceId) <==>
            || states[n].users[user.id].role == SuperAdmin
            || InvitedTo(p, states, actions, n, user.id, workspaceId))
  {
    hide Next, Enabled, Started, AuthenticateBearer, Describes, CanAccessWorkspace, InvitedTo, HasRow;
    var user := AuthenticateBearer(p, states[n], token, now).1.value;
    BearerIsDescribed(p, states[n], token, now);
    DescribedStatus(states[n], user);
    DescribedAccess(states[n], user, workspaceId);
    RolesAreInvitations(p, states, actions, n);
    GrantedIffInvited(p, states, actions, n, user.id, workspaceId);
  }
}
