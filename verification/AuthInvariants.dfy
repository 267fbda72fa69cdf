/** What holds in every state of every run: credentials, invitations, administrators and signing keys. */
module AuthInvariants {
  import opened Wrappers
  import opened Models
  import opened AuthModel
  import opened AuthSteps
  import opened AuthRuns
  import opened AuthChanges
  import Tenancy

  // ---------- synchronizing any key table ----------

  ghost predicate OnlyActive(keys: seq<KeyRow>, i: int) {
    0 <= i < |keys| && forall j | 0 <= j < |keys| :: keys[j].isActive <==> j == i
  }

  ghost predicate DistinctKeys(keys: seq<KeyRow>) {
    forall i, j | 0 <= i < |keys| && 0 <= j < |keys| && keys[i].material == keys[j].material :: i == j
  }

  /**
    * Whatever the table held: one active row remains, it carries the configured key, every row
    * keeps its identifier and key, a known key reuses its row, and no key comes to be stored twice.
    */
  lemma SyncLeavesOneActiveKey(keys: seq<KeyRow>, material: RsaPublic, freshId: Id, now: Instant)
    requires UniqueKeyIds(keys) && forall i | 0 <= i < |keys| :: keys[i].id != freshId
    ensures var synced := SyncKeys(keys, material, freshId, now);
      && UniqueKeyIds(synced)
      && KeysExtend(keys, synced)
      && (exists i :: OnlyActive(synced, i) && synced[i].material == material && HasJwkMetadata(synced[i]))
      && |synced| == |keys| + (if exists k :: k in keys && k.material == material then 0 else 1)
      && (DistinctKeys(keys) ==> DistinctKeys(synced))
      && (forall i | 0 <= i < |keys| :: synced[i].createdAt == keys[i].createdAt)
      && (|synced| > |keys| ==> synced[|keys|].id == freshId && synced[|keys|].createdAt == now)
  {
    var synced := SyncKeys(keys, material, freshId, now);
    match FindKey(keys, material) {
      case Some(i) =>
        assert keys[i] in keys;
        assert OnlyActive(synced, i);
      case None =>
        assert OnlyActive(synced, |keys|);
    }
  }

  /** Where a key is found depends on the keys the rows carry alone. */
  lemma {:induction false} SameMaterialFound(a: seq<KeyRow>, b: seq<KeyRow>, material: RsaPublic)
    requires |a| == |b| && forall i | 0 <= i < |a| :: a[i].material == b[i].material
    ensures FindKey(a, material) == FindKey(b, material)
  {
    if a != [] {
      SameMaterialFound(a[1..], b[1..], material);
    }
  }

  lemma {:induction false} FoundWhereAppended(keys: seq<KeyRow>, row: KeyRow, material: RsaPublic)
    requires FindKey(keys, material).None? && row.material == material
    ensures FindKey(keys + [row], material) == Some(|keys|)
  {
    if keys != [] {
      FoundWhereAppended(keys[1..], row, material);
      assert (keys + [row])[1..] == keys[1..] + [row];
    }
  }

  /** A second sync with the same key changes nothing, whatever the table held before the first. */
  lemma SyncAgainChangesNothing(keys: seq<KeyRow>, material: RsaPublic, id1: Id, id2: Id, now1: Instant, now2: Instant)
    ensures var once := SyncKeys(keys, material, id1, now1);
      SyncKeys(once, material, id2, now2) == once
  {
    var once := SyncKeys(keys, material, id1, now1);
    match FindKey(keys, material) {
      case Some(i) =>
        SameMaterialFound(keys, once, material);
        assert Deactivated(once)[i := once[i]] == once;
      case None =>
        SameMaterialFound(keys, Deactivated(keys), material);
        FoundWhereAppended(Deactivated(keys), once[|keys|], material);
        assert Deactivated(once)[|keys| := once[|keys|]] == once;
    }
  }

  // ---------- the invariant ----------

  /** Active users can log in, invited ones cannot yet. */
  ghost predicate CredentialsOk(users: map<Id, UserRow>) {
    forall id | id in users ::
      && (users[id].status == Active ==> users[id].passwordHash != "")
      && (users[id].status == Invited ==> users[id].passwordHash == "")
  }

  /** An invitation belongs to a user there is, and is accepted only once that user has a password. */
  ghost predicate InvitesFounded(s: AuthState) {
    forall i | i in s.invites ::
      && s.invites[i].userId in s.users
      && (s.invites[i].acceptedAt.Some? ==> s.users[s.invites[i].userId].passwordHash != "")
  }

  /** No user is invited twice. */
  ghost predicate InvitesApart(invites: map<Id, InviteRow>) {
    forall i, j | i in invites && j in invites && invites[i].userId == invites[j].userId :: i == j
  }

  ghost predicate InvitesOk(s: AuthState) {
    InvitesFounded(s) && InvitesApart(s.invites)
  }

  ghost predicate IsActiveAdmin(users: map<Id, UserRow>, id: Id) {
    id in users && users[id].role == SuperAdmin && users[id].status == Active
  }

  ghost predicate HasActiveAdmin(users: map<Id, UserRow>) {
    exists id :: IsActiveAdmin(users, id)
  }

  /** The one active key is the configured one, so every new token can be signed and verified. */
  ghost predicate KeysOk(p: Primitives, s: AuthState) {
    && ValidKeys(p, s.config)
    && UniqueKeyIds(s.keys)
    && DistinctKeys(s.keys)
    && (forall k | k in s.keys :: HasJwkMetadata(k))
    && exists i :: OnlyActive(s.keys, i) && Some(s.keys[i].material) == p.publicKeyOf(s.config.privateKeyPem)
  }

  ghost predicate Inv(p: Primitives, s: AuthState) {
    && UniqueColumns(s.users, s.invites, s.apiTokens)
    && CredentialsOk(s.users)
    && InvitesOk(s)
    && HasActiveAdmin(s.users)
    && KeysOk(p, s)
    && Tenancy.Tenanted(s.tables)
    && UsersExist(s)
  }

  /** Refresh rows and role rows belong to users there are. */
  ghost predicate UsersExist(s: AuthState) {
    && (forall id | id in s.refresh :: s.refresh[id].userId in s.users)
    && (forall i | 0 <= i < |s.tables.roles| :: s.tables.roles[i].userId in s.users)
  }

  lemma EmailsKept(p: Primitives, s: AuthState, c: Change)
    requires UniqueEmails(s.users) && Possible(p, s, c)
    ensures UniqueEmails(Apply(p, s, c).users)
  {
    hide SyncKeys, ActiveAdmins;
  }

  lemma HashesKept(p: Primitives, s: AuthState, c: Change)
    requires UniqueInviteHashes(s.invites) && UniqueTokenHashes(s.apiTokens) && Possible(p, s, c)
    ensures UniqueInviteHashes(Apply(p, s, c).invites) && UniqueTokenHashes(Apply(p, s, c).apiTokens)
  {
    hide SyncKeys, ActiveAdmins;
  }

  lemma ColumnsKept(p: Primitives, s: AuthState, c: Change)
    requires UniqueColumns(s.users, s.invites, s.apiTokens) && Possible(p, s, c)
    ensures var t := Apply(p, s, c); UniqueColumns(t.users, t.invites, t.apiTokens)
  {
    hide Apply, Possible, UniqueEmails, UniqueInviteHashes, UniqueTokenHashes;
    EmailsKept(p, s, c);
    HashesKept(p, s, c);
  }

  lemma CredentialsKept(p: Primitives, s: AuthState, c: Change)
    requires CredentialsOk(s.users) && Possible(p, s, c)
    ensures CredentialsOk(Apply(p, s, c).users)
  {
    hide SyncKeys, ActiveAdmins, UserByEmail, InviteByHash, ApiTokenByHash;
  }

  lemma InvitesStayFounded(p: Primitives, s: AuthState, c: Change)
    requires CredentialsOk(s.users) && InvitesFounded(s) && Possible(p, s, c)
    ensures InvitesFounded(Apply(p, s, c))
  {
    hide SyncKeys, ActiveAdmins, UserByEmail, InviteByHash, ApiTokenByHash;
  }

  lemma InvitesStayApart(p: Primitives, s: AuthState, c: Change)
    requires InvitesApart(s.invites) && Possible(p, s, c) && forall i | i in s.invites :: s.invites[i].userId in s.users
    ensures InvitesApart(Apply(p, s, c).invites)
  {
    hide SyncKeys, ActiveAdmins, UserByEmail, InviteByHash, ApiTokenByHash;
  }

  lemma InvitesKept(p: Primitives, s: AuthState, c: Change)
    requires CredentialsOk(s.users) && InvitesOk(s) && Possible(p, s, c)
    ensures InvitesOk(Apply(p, s, c))
  {
    hide Apply, Possible, InvitesApart;
    InvitesStayFounded(p, s, c);
    InvitesStayApart(p, s, c);
  }

  lemma AnotherAdmin(users: map<Id, UserRow>, id: Id) returns (other: Id)
    requires |ActiveAdmins(users)| > 1
    ensures other != id && IsActiveAdmin(users, other)
  {
    var admins := ActiveAdmins(users);
    assert |admins - {id}| >= |admins| - |{id}|;
    other :| other in admins - {id};
  }

  lemma AdminKept(p: Primitives, s: AuthState, c: Change)
    requires HasActiveAdmin(s.users) && Possible(p, s, c)
    ensures HasActiveAdmin(Apply(p, s, c).users)
  {
    hide ActiveAdmins;
    var t := Apply(p, s, c);
    var admin :| IsActiveAdmin(s.users, admin);
    if (c.SetStatus? || c.SetRole?) && c.id == admin && |ActiveAdmins(s.users)| > 1 {
      var other := AnotherAdmin(s.users, admin);
      assert IsActiveAdmin(t.users, other);
    } else {
      assert c.AddAdmin? ==> admin in s.users && s.users == map[];
      assert IsActiveAdmin(t.users, admin);
    }
  }

  lemma KeysKept(p: Primitives, s: AuthState, c: Change)
    requires KeysOk(p, s) && Possible(p, s, c)
    ensures KeysOk(p, Apply(p, s, c))
  {
    if c.SyncTo? {
      hide SyncKeys;
      SyncLeavesOneActiveKey(s.keys, p.readPublicKey(c.config.publicKeyPem).value, c.keyId, c.now);
      SyncMetadata(s.keys, p.readPublicKey(c.config.publicKeyPem).value, c.keyId, c.now);
    }
  }

  lemma SyncMetadata(keys: seq<KeyRow>, material: RsaPublic, freshId: Id, now: Instant)
    requires forall k | k in keys :: HasJwkMetadata(k)
    ensures forall k | k in SyncKeys(keys, material, freshId, now) :: HasJwkMetadata(k)
  {
    forall k | k in SyncKeys(keys, material, freshId, now)
      ensures HasJwkMetadata(k)
    {
      assert forall i | 0 <= i < |keys| :: keys[i] in keys;
    }
  }

  lemma TablesKept(p: Primitives, s: AuthState, c: Change)
    requires Tenancy.Tenanted(s.tables) && Possible(p, s, c)
    ensures Tenancy.Tenanted(Apply(p, s, c).tables)
  {
    hide Tenancy.Tenanted;
    if c.ChangeTables? {
      Tenancy.NextKeepsTenanted(s.tables, c.vault, c.action);
    } else if c.AddInvited? {
      Tenancy.AddRoleKeeps(s.tables, c.role);
    }
  }

  lemma InvKept(p: Primitives, s: AuthState, c: Change)
    requires Inv(p, s) && Possible(p, s, c)
    ensures Inv(p, Apply(p, s, c))
  {
    hide UniqueColumns, CredentialsOk, InvitesOk, HasActiveAdmin, KeysOk, Tenancy.Tenanted, UsersExist, Possible, Apply;
    ColumnsKept(p, s, c);
    CredentialsKept(p, s, c);
    InvitesKept(p, s, c);
    AdminKept(p, s, c);
    KeysKept(p, s, c);
    TablesKept(p, s, c);
    UsersStayThere(p, s, c);
  }

  lemma UsersStayThere(p: Primitives, s: AuthState, c: Change)
    requires Possible(p, s, c) && UsersExist(s)
    ensures UsersExist(Apply(p, s, c))
  {
    hide SyncKeys, ActiveAdmins, UserByEmail, InviteByHash, ApiTokenByHash;
    if c.ChangeTables? {
      TablesKeepRoles(s.tables, c.vault, c.action);
    }
  }

  lemma TablesKeepRoles(t: Tenancy.Tables, vault: Tenancy.Vault, action: Tenancy.Action)
    requires Tenancy.Enabled(t, action) && !action.AddRole?
    ensures Tenancy.Next(t, vault, action).roles == t.roles
  {
  }

  lemma {:induction false} ChangesKeepInv(p: Primitives, s: AuthState, changes: seq<Change>, t: AuthState)
    requires Inv(p, s) && Reaches(p, s, changes, t)
    ensures Inv(p, t)
    decreases |changes|
  {
    hide Inv, Possible, Apply;
    if changes != [] {
      InvKept(p, s, changes[0]);
      ChangesKeepInv(p, Apply(p, s, changes[0]), changes[1..], t);
    }
  }

  lemma StartsWithInv(p: Primitives, s: AuthState)
    requires Lawful(p) && Started(p, s)
    ensures Inv(p, s)
  {
    var config, keyId: Id, adminId: Id, salt, now: Instant :| IsStart(p, s, config, keyId, adminId, salt, now);
    assert FindKey([], p.readPublicKey(config.publicKeyPem).value) == None;
    assert IsActiveAdmin(s.users, adminId);
    assert OnlyActive(s.keys, 0);
  }

  /** Every state of every run meets the invariant. */
  lemma {:induction false} RunsKeepInv(p: Primitives, states: seq<AuthState>, actions: seq<Action>, i: nat)
    requires Lawful(p) && IsRun(p, states, actions) && i < |states|
    ensures Inv(p, states[i])
  {
    hide Inv, Next, Lawful, Started;
    if i == 0 {
      StartsWithInv(p, states[0]);
    } else {
      RunsKeepInv(p, states, actions, i - 1);
      var changes := NextIsChanges(p, states[i - 1], actions[i - 1]);
      ChangesKeepInv(p, states[i - 1], changes, states[i]);
    }
  }
}
