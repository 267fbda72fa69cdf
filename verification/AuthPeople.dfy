/** Administration over whole runs: the last administrator, invitations used once, disabled users. */
module AuthPeople {
  import opened Wrappers
  import opened Models
  import opened AuthModel
  import opened AuthSteps
  import opened AuthRuns
  import opened AuthChanges
  import opened AuthInvariants
  import Tenancy

  // ---------- the last administrator ----------

  lemma AdminsOf(users: map<Id, UserRow>)
    ensures HasActiveAdmin(users) <==> ActiveAdmins(users) != {}
  {
    if HasActiveAdmin(users) {
      var id :| IsActiveAdmin(users, id);
      assert id in ActiveAdmins(users);
    }
    if ActiveAdmins(users) != {} {
      var id :| id in ActiveAdmins(users);
      assert IsActiveAdmin(users, id);
    }
  }

  lemma WithoutOne(admins: set<Id>, id: Id)
    requires id in admins
    ensures |admins| <= 1 <==> admins - {id} == {}
  {
    assert |admins - {id}| == |admins| - 1;
  }

  /** Every reachable state has an active administrator. */
  lemma AlwaysAnAdmin(p: Primitives, states: seq<AuthState>, actions: seq<Action>, n: nat)
    requires Lawful(p) && IsRun(p, states, actions) && n < |states|
    ensures ActiveAdmins(states[n].users) != {}
  {
    hide Lawful, IsRun;
    RunsKeepInv(p, states, actions, n);
    AdminsOf(states[n].users);
  }

  /** Disabling an active user is refused exactly when it would leave no active administrator. */
  lemma DisableGuard(s: AuthState, id: Id)
    requires HasActiveAdmin(s.users) && id in s.users && s.users[id].status == Active
    ensures DisableUser(s, id).1.Err? <==> !HasActiveAdmin(WithStatus(s, id, Disabled).users)
    ensures DisableUser(s, id).1.Err? ==> DisableUser(s, id).0 == s
  {
    var after := WithStatus(s, id, Disabled).users;
    AdminsOf(s.users);
    AdminsOf(after);
    if s.users[id].role == SuperAdmin {
      assert id in ActiveAdmins(s.users);
      WithoutOne(ActiveAdmins(s.users), id);
    }
    assert ActiveAdmins(after) == ActiveAdmins(s.users) - {id};
  }

  /** Changing a role is refused exactly when it would leave no active administrator. */
  lemma ChangeRoleGuard(s: AuthState, id: Id, role: Role)
    requires HasActiveAdmin(s.users) && id in s.users
    ensures ChangeUserRole(s, id, role).1.Err? <==> !HasActiveAdmin(WithRole(s, id, role).users)
    ensures ChangeUserRole(s, id, role).1.Err? ==> ChangeUserRole(s, id, role).0 == s
  {
    var after := WithRole(s, id, role).users;
    AdminsOf(s.users);
    AdminsOf(after);
    if role == SuperAdmin || s.users[id].status != Active || s.users[id].role != SuperAdmin {
      assert ActiveAdmins(s.users) <= ActiveAdmins(after);
    } else {
      assert id in ActiveAdmins(s.users);
      WithoutOne(ActiveAdmins(s.users), id);
      assert ActiveAdmins(after) == ActiveAdmins(s.users) - {id};
    }
  }

  /** The one case in which the disable guard refuses what it need not. */
  predicate InvitedAdminBesideOne(users: map<Id, UserRow>, id: Id, admins: nat)
    requires id in users
  {
    users[id].role == SuperAdmin && users[id].status == Invited && admins == 1
  }

  /** For every target: the disable guard is exact unless an invited super admin meets a single active one. */
  lemma DisableGuardExactIff(s: AuthState, id: Id)
    requires HasActiveAdmin(s.users) && id in s.users
    ensures (DisableUser(s, id).1.Err? <==> !HasActiveAdmin(WithStatus(s, id, Disabled).users))
       <==> !InvitedAdminBesideOne(s.users, id, |ActiveAdmins(s.users)|)
  {
    if s.users[id].status == Active {
      DisableGuard(s, id);
    } else {
      var after := WithStatus(s, id, Disabled).users;
      AdminsOf(s.users);
      AdminsOf(after);
      assert ActiveAdmins(after) == ActiveAdmins(s.users);
      assert |ActiveAdmins(s.users)| != 0;
    }
  }

  /** Such a case: one active administrator, and an invited user who was made super admin. */
  lemma DisableGuardRefusesTooMuch(s: AuthState, admin: UserRow, invited: UserRow)
    requires s.users == map[0 := admin, 1 := invited]
    requires admin.role == SuperAdmin && admin.status == Active
    requires invited.role == SuperAdmin && invited.status == Invited
    ensures DisableUser(s, 1) == (s, Err(BadRequest("cannot disable the last active platform admin")))
    ensures HasActiveAdmin(WithStatus(s, 1, Disabled).users)
  {
    assert ActiveAdmins(s.users) == {0};
    assert IsActiveAdmin(WithStatus(s, 1, Disabled).users, 0);
  }

  /** The first start on an empty database leaves one user, the administrator. */
  lemma FirstStart(p: Primitives, config: Config, salt: string, now: Instant) returns (s: AuthState)
    requires ValidKeys(p, config) && p.hashPassword(config.adminPassword, salt).Some?
    ensures Started(p, s) && s.users.Keys == {0} && s.invites == map[] && s.tables == Tenancy.EMPTY
    ensures s.users[0].email == config.adminEmail && s.users[0].role == SuperAdmin && s.users[0].status == Active
  {
    hide SyncKeys;
    s := Bootstrap(p, Empty(config), config, 0, 0, salt, now).0;
    assert IsStart(p, s, config, 0, 0, salt, now);
  }

  lemma AdminInvites(p: Primitives, s: AuthState, email: string, now: Instant) returns (a: Action)
    requires 0 in s.users && s.users.Keys == {0} && s.users[0].role == SuperAdmin && s.users[0].email != email
    requires s.invites == map[] && 0 in s.tables.workspaces
    ensures Enabled(p, s, a) && Next(p, s, a).users == s.users[1 := UserRow(email, "", Viewer, Invited, "")]
  {
    a := DoInvite(InviteInput(Person(s, 0), 0, email, "", Viewer), "", 1, 0, 0, now);
    assert UserByEmail(s.users, email).None? && InviteByHash(s.invites, p.tokenHash("")).None?;
  }

  /**
    * Every installation gets there: after the first start, a workspace, an invitation and a change
    * of the invited user's role, disabling that user is refused although an administrator remains.
    */
  lemma RefusesTooMuchInARun(p: Primitives, config: Config, salt: string, email: string, vault: Tenancy.Vault,
                             now: Instant)
    returns (states: seq<AuthState>, actions: seq<Action>)
    requires ValidKeys(p, config) && p.hashPassword(config.adminPassword, salt).Some? && email != config.adminEmail
    ensures IsRun(p, states, actions) && |states| == 4
    ensures var s := states[3];
      && 1 in s.users && DisableUser(s, 1) == (s, Err(BadRequest("cannot disable the last active platform admin")))
      && HasActiveAdmin(WithStatus(s, 1, Disabled).users)
  {
    hide Started, Next, Enabled, IsRun;
    var s0 := FirstStart(p, config, salt, now);
    var create := DoTenant(vault, Tenancy.AddWorkspace("", None, 0, 0));
    FirstWorkspace(p, s0, vault);
    var s1 := Next(p, s0, create);
    var invite := AdminInvites(p, s1, email, now);
    var s2 := Next(p, s1, invite);
    var promote := DoChangeRole(1, SuperAdmin);
    Promotion(p, s2);
    var s3 := Next(p, s2, promote);
    states, actions := [s0, s1, s2, s3], [create, invite, promote];
    ThreeSteps(p, s0, create, s1, invite, s2, promote, s3);
    assert s3.users == map[0 := s0.users[0], 1 := UserRow(email, "", SuperAdmin, Invited, "")];
    DisableGuardRefusesTooMuch(s3, s3.users[0], s3.users[1]);
  }

  lemma FirstWorkspace(p: Primitives, s: AuthState, vault: Tenancy.Vault)
    requires s.tables == Tenancy.EMPTY
    ensures var a := DoTenant(vault, Tenancy.AddWorkspace("", None, 0, 0));
      && Enabled(p, s, a)
      && Next(p, s, a).users == s.users && Next(p, s, a).invites == s.invites
      && 0 in Next(p, s, a).tables.workspaces
  {
  }

  lemma Promotion(p: Primitives, s: AuthState)
    requires 1 in s.users && s.users[1].role == Viewer
    ensures Enabled(p, s, DoChangeRole(1, SuperAdmin))
    ensures Next(p, s, DoChangeRole(1, SuperAdmin)).users == s.users[1 := s.users[1].(role := SuperAdmin)]
  {
    hide ActiveAdmins, Person;
  }

  lemma ThreeSteps(p: Primitives, s0: AuthState, a0: Action, s1: AuthState, a1: Action, s2: AuthState, a2: Action,
                   s3: AuthState)
    requires Started(p, s0) && Enabled(p, s0, a0) && Enabled(p, s1, a1) && Enabled(p, s2, a2)
    requires s1 == Next(p, s0, a0) && s2 == Next(p, s1, a1) && s3 == Next(p, s2, a2)
    ensures IsRun(p, [s0, s1, s2, s3], [a0, a1, a2])
  {
    hide Started, Enabled, Next;
  }

  // ---------- invitations ----------

  /** The call gives the invited user a password, whether or not it then runs to its end. */
  ghost predicate SetsPassword(p: Primitives, s: AuthState, a: Action, inviteId: Id) {
    match a
    case DoAccept(token, password, salt, _, _, now) =>
      SetInvitedPassword(p, s, token, password, salt, now).1 == Ok(inviteId)
    case DoAcceptInterrupted(token, password, salt, now) =>
      SetInvitedPassword(p, s, token, password, salt, now).1 == Ok(inviteId)
    case _ => false
  }

  lemma AfterSettingPassword(p: Primitives, s: AuthState, a: Action, inviteId: Id)
    requires Lawful(p) && Enabled(p, s, a) && SetsPassword(p, s, a, inviteId)
    ensures var t := Next(p, s, a);
      && inviteId in s.invites && inviteId in t.invites && t.invites[inviteId].userId == s.invites[inviteId].userId
      && t.invites[inviteId].userId in t.users && t.users[t.invites[inviteId].userId].status == Active
  {
    hide Sign, SignBoth, Person;
  }

  /**
    * An invitation sets a password at most once in a run, even when an acceptance stops between
    * its two updates; and the password it set stays.
    */
  lemma InviteSetsOnePassword(p: Primitives, states: seq<AuthState>, actions: seq<Action>, i: nat, j: nat, inviteId: Id)
    requires Lawful(p) && IsRun(p, states, actions) && i < j < |states|
    requires SetsPassword(p, states[i], actions[i], inviteId)
    ensures j < |actions| ==> !SetsPassword(p, states[j], actions[j], inviteId)
    ensures inviteId in states[i].invites
    ensures var userId := states[i].invites[inviteId].userId;
      && userId in states[i + 1].users && userId in states[j].users
      && states[j].users[userId].passwordHash == states[i + 1].users[userId].passwordHash
  {
    hide Lawful, Started, Next, Enabled;
    AfterSettingPassword(p, states[i], actions[i], inviteId);
    RunExtends(p, states, actions, i + 1, j);
  }

  /** A user disabled before accepting stays disabled, and without a password, for the rest of the run. */
  lemma DisabledBeforeAcceptingStays(p: Primitives, states: seq<AuthState>, actions: seq<Action>, i: nat, j: nat,
                                     id: Id)
    requires Lawful(p) && IsRun(p, states, actions) && i <= j < |states|
    requires id in states[i].users && states[i].users[id].status == Disabled && states[i].users[id].passwordHash == ""
    ensures id in states[j].users && states[j].users[id].status == Disabled && states[j].users[id].passwordHash == ""
  {
    hide Lawful, IsRun;
    RunExtends(p, states, actions, i, j);
  }

  /** An invitation is marked accepted exactly when its user has a password. */
  ghost predicate Settled(s: AuthState) {
    forall i | i in s.invites && s.invites[i].userId in s.users ::
      s.invites[i].acceptedAt.Some? <==> s.users[s.invites[i].userId].passwordHash != ""
  }

  lemma AcceptSettles(p: Primitives, s: AuthState, token: string, password: string, salt: string, refreshId: Id,
                      jti: string, now: Instant)
    requires Lawful(p) && InvitesOk(s) && Settled(s)
    ensures Settled(AcceptInvite(p, s, token, password, salt, refreshId, jti, now).0)
  {
    hide Sign, SignBoth, Person;
  }

  lemma InviteSettles(p: Primitives, s: AuthState, input: InviteInput, rawToken: string, userId: Id, inviteId: Id,
                      roleId: Id, now: Instant)
    requires InvitesOk(s) && Settled(s) && userId !in s.users && inviteId !in s.invites
    ensures Settled(InviteUser(p, s, input, rawToken, userId, inviteId, roleId, now).0)
  {
  }

  ghost predicate SamePasswords(s: AuthState, t: AuthState) {
    && t.invites == s.invites && t.users.Keys == s.users.Keys
    && forall id | id in s.users :: t.users[id].passwordHash == s.users[id].passwordHash
  }

  lemma BootstrapLeavesPasswords(p: Primitives, s: AuthState, config: Config, keyId: Id, adminId: Id, salt: string,
                                 now: Instant)
    requires HasActiveAdmin(s.users)
    ensures SamePasswords(s, Bootstrap(p, s, config, keyId, adminId, salt, now).0)
  {
    hide SyncKeys;
    var id :| IsActiveAdmin(s.users, id);
    assert id in s.users;
  }

  lemma OneUserChanged(s: AuthState, id: Id, status: UserStatus, role: Role)
    requires id in s.users
    ensures SamePasswords(s, WithStatus(s, id, status)) && SamePasswords(s, WithRole(s, id, role))
    ensures SamePasswords(s, s)
  {
  }

  lemma AdministrationLeavesPasswords(s: AuthState, id: Id, role: Role)
    ensures SamePasswords(s, DisableUser(s, id).0) && SamePasswords(s, ReactivateUser(s, id).0)
    ensures SamePasswords(s, ChangeUserRole(s, id, role).0)
  {
    if id in s.users {
      hide Person, ActiveAdmins, SamePasswords, WithStatus, WithRole;
      OneUserChanged(s, id, Disabled, role);
      OneUserChanged(s, id, Active, role);
    }
  }

  lemma SessionsLeavePasswords(p: Primitives, s: AuthState, a: string, b: string, refreshId: Id, jti: string,
                               now: Instant)
    ensures SamePasswords(s, Login(p, s, a, b, refreshId, jti, now).0)
    ensures SamePasswords(s, RefreshSession(p, s, a, refreshId, jti, now).0)
    ensures SamePasswords(s, Logout(p, s, a, now).0)
  {
    hide Sign, SignBoth, ActiveRefresh, Person;
  }

  lemma BearersLeavePasswords(p: Primitives, s: AuthState, token: string, user: User, name: string, random: string,
                              id: Id, now: Instant)
    ensures SamePasswords(s, AuthenticateBearer(p, s, token, now).0)
    ensures SamePasswords(s, CreateApiToken(p, s, user, name, random, id, now).0)
    ensures SamePasswords(s, RevokeApiToken(s, user, id, now).0)
  {
    hide VerifyAccess, Person;
  }

  /** The other calls leave the invitations, and every password, alone. */
  lemma OthersLeavePasswords(p: Primitives, s: AuthState, a: Action)
    requires Enabled(p, s, a) && HasActiveAdmin(s.users)
    requires !a.DoAccept? && !a.DoAcceptInterrupted? && !a.DoInvite?
    ensures SamePasswords(s, Next(p, s, a))
  {
    hide HasActiveAdmin, Bootstrap, DisableUser, ReactivateUser, ChangeUserRole, Login, RefreshSession, Logout,
      AuthenticateBearer, CreateApiToken, RevokeApiToken;
    match a {
      case DoBootstrap(config, keyId, adminId, salt, now) =>
        BootstrapLeavesPasswords(p, s, config, keyId, adminId, salt, now);
      case DoLogin(email, password, refreshId, jti, now) =>
        SessionsLeavePasswords(p, s, email, password, refreshId, jti, now);
      case DoRefresh(token, refreshId, jti, now) =>
        SessionsLeavePasswords(p, s, token, "", refreshId, jti, now);
      case DoLogout(token, now) => SessionsLeavePasswords(p, s, token, "", 0, "", now);
      case DoAuthenticate(token, now) =>
        BearersLeavePasswords(p, s, token, User(0, "", "", Viewer, Invited, []), "", "", 0, now);
      case DoDisable(id) => AdministrationLeavesPasswords(s, id, Viewer);
      case DoReactivate(id) => AdministrationLeavesPasswords(s, id, Viewer);
      case DoChangeRole(id, role) => AdministrationLeavesPasswords(s, id, role);
      case DoCreateApiToken(user, name, random, id, now) =>
        BearersLeavePasswords(p, s, "", user, name, random, id, now);
      case DoRevokeApiToken(user, tokenId, now) =>
        BearersLeavePasswords(p, s, "", user, "", "", tokenId, now);
      case DoTenant(_, _) =>
    }
  }

  lemma NextSettles(p: Primitives, s: AuthState, a: Action)
    requires Lawful(p) && Enabled(p, s, a) && InvitesOk(s) && HasActiveAdmin(s.users) && Settled(s)
    requires !a.DoAcceptInterrupted?
    ensures Settled(Next(p, s, a))
  {
    hide Lawful, AcceptInvite, InviteUser;
    match a {
      case DoAccept(token, password, salt, refreshId, jti, now) =>
        AcceptSettles(p, s, token, password, salt, refreshId, jti, now);
      case DoInvite(input, rawToken, userId, inviteId, roleId, now) =>
        InviteSettles(p, s, input, rawToken, userId, inviteId, roleId, now);
      case _ =>
        hide Next;
        OthersLeavePasswords(p, s, a);
    }
  }

  /** The token is an open invitation's, its user is waiting for it, and the password can be hashed. */
  ghost predicate CanAccept(p: Primitives, s: AuthState, token: string, password: string, salt: string, now: Instant,
                            inviteId: Id)
  {
    && inviteId in s.invites
    && s.invites[inviteId].tokenHash == p.tokenHash(token)
    && s.invites[inviteId].acceptedAt.None?
    && now <= s.invites[inviteId].expiresAt
    && s.invites[inviteId].userId in s.users
    && s.users[s.invites[inviteId].userId].status == Invited
    && p.hashPassword(password, salt).Some?
  }

  /** An acceptance that nothing refuses, and that stops behind its first update. */
  ghost predicate StopsBetweenUpdates(p: Primitives, s: AuthState, a: Action) {
    a.DoAcceptInterrupted? && exists inviteId :: CanAccept(p, s, a.token, a.password, a.salt, a.now, inviteId)
  }

  lemma AcceptedIffGuard(p: Primitives, s: AuthState, token: string, password: string, salt: string, now: Instant)
    requires UniqueInviteHashes(s.invites)
    ensures SetInvitedPassword(p, s, token, password, salt, now).1.Ok?
       <==> exists inviteId :: CanAccept(p, s, token, password, salt, now, inviteId)
  {
    var found := InviteByHash(s.invites, p.tokenHash(token));
    if found.Some? && SetInvitedPassword(p, s, token, password, salt, now).1.Ok? {
      assert CanAccept(p, s, token, password, salt, now, found.value);
    }
  }

  /** One call keeps accepted and having a password the same unless it stops between the two updates. */
  lemma StaysSettledIff(p: Primitives, s: AuthState, a: Action)
    requires Lawful(p) && Enabled(p, s, a) && InvitesOk(s) && HasActiveAdmin(s.users) && UniqueInviteHashes(s.invites)
    requires Settled(s)
    ensures Settled(Next(p, s, a)) <==> !StopsBetweenUpdates(p, s, a)
  {
    if a.DoAcceptInterrupted? {
      InterruptionUnsettles(p, s, a.token, a.password, a.salt, a.now);
      AcceptedIffGuard(p, s, a.token, a.password, a.salt, a.now);
    } else {
      hide Settled, Next, InvitesOk, HasActiveAdmin, Lawful;
      NextSettles(p, s, a);
    }
  }

  lemma InterruptionUnsettles(p: Primitives, s: AuthState, token: string, password: string, salt: string, now: Instant)
    requires Lawful(p) && Settled(s)
    ensures var (t, r) := SetInvitedPassword(p, s, token, password, salt, now);
      Settled(t) <==> r.Err?
  {
    var (t, r) := SetInvitedPassword(p, s, token, password, salt, now);
    if r.Ok? {
      assert t.invites[r.value].acceptedAt.None? && t.users[t.invites[r.value].userId].passwordHash != "";
    }
  }

  /** The invitation is unmarked although its user has a password and is past being invited. */
  ghost predicate Stranded(s: AuthState, inviteId: Id) {
    && inviteId in s.invites && s.invites[inviteId].acceptedAt.None?
    && s.invites[inviteId].userId in s.users
    && s.users[s.invites[inviteId].userId].passwordHash != ""
    && s.users[s.invites[inviteId].userId].status != Invited
  }

  lemma UnsettledIsStranded(s: AuthState) returns (inviteId: Id)
    requires InvitesOk(s) && CredentialsOk(s.users) && !Settled(s)
    ensures Stranded(s, inviteId)
  {
    inviteId :| inviteId in s.invites && s.invites[inviteId].acceptedAt.None?
                && s.users[s.invites[inviteId].userId].passwordHash != "";
  }

  lemma StrandedMeansUnsettled(s: AuthState, inviteId: Id)
    requires Stranded(s, inviteId)
    ensures !Settled(s)
  {
  }

  lemma AcceptLeavesUnmarked(p: Primitives, s: AuthState, token: string, password: string, salt: string,
                             refreshId: Id, jti: string, now: Instant, inviteId: Id)
    requires Stranded(s, inviteId)
    ensures var t := AcceptInvite(p, s, token, password, salt, refreshId, jti, now).0;
      inviteId in t.invites && t.invites[inviteId].acceptedAt.None?
  {
    hide Sign, SignBoth, Person;
  }

  lemma InviteLeavesUnmarked(p: Primitives, s: AuthState, input: InviteInput, rawToken: string,
                             userId: Id, newId: Id, roleId: Id, now: Instant, inviteId: Id)
    requires newId !in s.invites && Stranded(s, inviteId)
    ensures var t := InviteUser(p, s, input, rawToken, userId, newId, roleId, now).0;
      inviteId in t.invites && t.invites[inviteId].acceptedAt.None?
  {
  }

  /** No call marks such an invitation. */
  lemma StaysUnmarked(p: Primitives, s: AuthState, a: Action, inviteId: Id)
    requires Enabled(p, s, a) && HasActiveAdmin(s.users) && Stranded(s, inviteId)
    ensures inviteId in Next(p, s, a).invites && Next(p, s, a).invites[inviteId].acceptedAt.None?
  {
    hide HasActiveAdmin, AcceptInvite, InviteUser, SetInvitedPassword;
    match a {
      case DoAccept(token, password, salt, refreshId, jti, now) =>
        AcceptLeavesUnmarked(p, s, token, password, salt, refreshId, jti, now, inviteId);
      case DoInvite(input, rawToken, userId, newId, roleId, now) =>
        InviteLeavesUnmarked(p, s, input, rawToken, userId, newId, roleId, now, inviteId);
      case DoAcceptInterrupted(token, password, salt, now) =>
        PasswordLeavesInvites(p, s, token, password, salt, now);
      case _ =>
        hide Next;
        OthersLeavePasswords(p, s, a);
    }
  }

  lemma PasswordLeavesInvites(p: Primitives, s: AuthState, token: string, password: string, salt: string, now: Instant)
    ensures SetInvitedPassword(p, s, token, password, salt, now).0.invites == s.invites
  {
  }

  lemma StaysStranded(p: Primitives, s: AuthState, a: Action, inviteId: Id)
    requires Lawful(p) && Enabled(p, s, a) && HasActiveAdmin(s.users) && Stranded(s, inviteId)
    ensures Stranded(Next(p, s, a), inviteId)
  {
    hide Lawful, Next, HasActiveAdmin;
    StaysUnmarked(p, s, a, inviteId);
    NextExtends(p, s, a);
  }

  /**
    * In a state of a run every invitation is marked accepted exactly when its user has a password,
    * if and only if no acceptance so far stopped between its two updates.
    */
  lemma {:induction false} RunsSettleIff(p: Primitives, states: seq<AuthState>, actions: seq<Action>, n: nat)
    requires Lawful(p) && IsRun(p, states, actions) && n < |states|
    ensures Settled(states[n]) <==> forall k | 0 <= k < n :: !StopsBetweenUpdates(p, states[k], actions[k])
  {
    hide Lawful, Started, Next, Enabled, Inv, InvitesOk, HasActiveAdmin, CredentialsOk, UniqueInviteHashes,
      StopsBetweenUpdates, Settled, Stranded;
    if n == 0 {
      StartIsSettled(p, states[0]);
    } else {
      var s, a := states[n - 1], actions[n - 1];
      assert Enabled(p, s, a) && states[n] == Next(p, s, a);
      RunsSettleIff(p, states, actions, n - 1);
      RunsKeepInv(p, states, actions, n - 1);
      InvPeople(p, s);
      if Settled(s) {
        StaysSettledIff(p, s, a);
      } else {
        var inviteId := UnsettledIsStranded(s);
        StaysStranded(p, s, a, inviteId);
        StrandedMeansUnsettled(states[n], inviteId);
      }
    }
  }

  lemma StartIsSettled(p: Primitives, s: AuthState)
    requires Started(p, s)
    ensures Settled(s)
  {
    hide Started;
    StartHasNoInvites(p, s);
  }

  lemma InvPeople(p: Primitives, s: AuthState)
    requires Inv(p, s)
    ensures InvitesOk(s) && HasActiveAdmin(s.users) && CredentialsOk(s.users) && UniqueInviteHashes(s.invites)
  {
  }

  lemma StartHasNoInvites(p: Primitives, s: AuthState)
    requires Started(p, s)
    ensures s.invites == map[]
  {
    hide SyncKeys;
    var config, keyId: Id, adminId: Id, salt, now: Instant :| IsStart(p, s, config, keyId, adminId, salt, now);
  }
}
