/** When each insert succeeds, what it answers, and all that it changes. */
module TenancyEffects {
  import opened Wrappers
  import opened Models
  import opened Tenancy
  import Crypto

  /** One row more, under its identifier. */
  ghost predicate OneMore<T(!new)>(before: map<Id, T>, after: map<Id, T>, id: Id, row: T) {
    after.Keys == before.Keys + {id} && after[id] == row && forall x | x in before && x != id :: after[x] == before[x]
  }

  /** A workspace and its first environment; no other row and no other table. */
  lemma WorkspaceCreated(t: Tables, name: string, description: Option<string>, id: Id, environmentId: Id)
    ensures var (u, w) := CreateWorkspace(t, name, description, id, environmentId);
      && w.id == id && w.name == name && w.description == description
      && OneMore(t.workspaces, u.workspaces, id, w)
      && environmentId in u.environments
      && u.environments[environmentId].id == environmentId
      && u.environments[environmentId].workspaceId == id
      && u.environments[environmentId].name == "production"
      && OneMore(t.environments, u.environments, environmentId, u.environments[environmentId])
      && u.services == t.services && u.envVars == t.envVars && u.roles == t.roles
  {
  }

  /** An environment, exactly for a workspace there is. */
  lemma EnvironmentCreated(t: Tables, workspaceId: Id, name: string, id: Id)
    ensures var (u, r) := CreateEnvironment(t, workspaceId, name, id);
      && (r.Ok? <==> workspaceId in t.workspaces)
      && (r.Err? ==> u == t && r.error == NotFound("workspace"))
      && (r.Ok? ==>
            && r.value.id == id && r.value.workspaceId == workspaceId && r.value.name == name
            && OneMore(t.environments, u.environments, id, r.value)
            && u.workspaces == t.workspaces && u.services == t.services && u.envVars == t.envVars && u.roles == t.roles)
  {
  }

  /** A service, exactly for a workspace there is and an environment of its own; every field is the input's. */
  lemma ServiceCreated(t: Tables, input: ServiceInput, id: Id)
    ensures var (u, r) := CreateService(t, input, id);
      && (r.Ok? <==> && input.workspaceId in t.workspaces && input.environmentId in t.environments
                     && t.environments[input.environmentId].workspaceId == input.workspaceId)
      && (r.Err? ==> u == t
                     && r.error == NotFound(if input.workspaceId in t.workspaces then "environment" else "workspace"))
      && (r.Ok? ==>
            && r.value.id == id && r.value.workspaceId == input.workspaceId
            && r.value.environmentId == input.environmentId && r.value.name == input.name
            && r.value.deployKind == input.deployKind && r.value.image == input.image
            && r.value.composeFile == input.composeFile && r.value.dockerfile == input.dockerfile
            && r.value.internalPort == input.internalPort
            && OneMore(t.services, u.services, id, r.value)
            && u.workspaces == t.workspaces && u.environments == t.environments
            && u.envVars == t.envVars && u.roles == t.roles)
  {
  }

  /** The environment the env var names, if any, is there and belongs to its workspace. */
  predicate OwnEnvironment(t: Tables, input: EnvVarInput) {
    input.environmentId.Some? ==>
      && input.environmentId.value in t.environments
      && t.environments[input.environmentId.value].workspaceId == input.workspaceId
  }

  /** What the env var names is there and belongs to its workspace. */
  predicate NamesOwn(t: Tables, input: EnvVarInput) {
    && input.workspaceId in t.workspaces
    && OwnEnvironment(t, input)
    && (input.serviceId.Some? ==> input.serviceId.value in t.services
                                  && t.services[input.serviceId.value].workspaceId == input.workspaceId)
  }

  /** The row holds the input, its value readable with the key alone; the reply shows all but the value. */
  ghost predicate Holds(vault: Vault, row: EnvVarRow, reply: EnvVarResponse, input: EnvVarInput, id: Id) {
    && row.id == reply.id == id && row.workspaceId == reply.workspaceId == input.workspaceId
    && row.environmentId == reply.environmentId == input.environmentId
    && row.serviceId == reply.serviceId == input.serviceId
    && row.key == reply.key == input.key
    && Crypto.DecryptSecret(vault.sha256, vault.secretKey, row.encryptedValue) == Ok(input.value)
    && reply.value == "********"
  }

  /** An env var, exactly when what it names is its workspace's own. */
  lemma EnvVarCreated(t: Tables, vault: Vault, input: EnvVarInput, id: Id)
    ensures var (u, r) := CreateEnvVar(t, vault, input, id);
      && (r.Ok? <==> NamesOwn(t, input))
      && (r.Err? ==> u == t)
      && (r.Ok? ==>
            && id in u.envVars && Holds(vault, u.envVars[id], r.value, input, id)
            && OneMore(t.envVars, u.envVars, id, u.envVars[id])
            && u.workspaces == t.workspaces && u.environments == t.environments
            && u.services == t.services && u.roles == t.roles)
  {
    hide Crypto.EncryptSecret, Crypto.DecryptSecret;
    Crypto.DecryptEncrypt(vault.sha256, vault.secretKey, input.value);
  }

  /** A refusal names the first thing that is missing, in the order workspace, environment, service. */
  lemma EnvVarRefused(t: Tables, vault: Vault, input: EnvVarInput, id: Id)
    requires !NamesOwn(t, input)
    ensures var missing :=
        if input.workspaceId !in t.workspaces then "workspace"
        else if !OwnEnvironment(t, input) then "environment" else "service";
      CreateEnvVar(t, vault, input, id) == (t, Err(NotFound(missing)))
  {
  }

  /** Several env vars are stored exactly when each may be; otherwise none is. */
  lemma {:induction false} EnvVarsChecked(t: Tables, inputs: seq<EnvVarInput>)
    ensures FirstScopeError(t, inputs).None? <==> forall i | 0 <= i < |inputs| :: NamesOwn(t, inputs[i])
  {
    if inputs != [] {
      EnvVarsChecked(t, inputs[1..]);
      assert forall i | 0 < i < |inputs| :: inputs[i] == inputs[1..][i - 1];
      if forall i | 0 <= i < |inputs| :: NamesOwn(t, inputs[i]) {
        assert forall i | 0 <= i < |inputs[1..]| :: inputs[1..][i] == inputs[i + 1];
        assert NamesOwn(t, inputs[0]);
      }
    }
  }

  lemma {:induction false} InsertedKeys(rows: map<Id, EnvVarRow>, vault: Vault, inputs: seq<EnvVarInput>, ids: seq<Id>)
    requires |ids| == |inputs|
    ensures InsertEnvVars(rows, vault, inputs, ids).Keys == rows.Keys + (set i | 0 <= i < |ids| :: ids[i])
    decreases |inputs|
  {
    hide EnvVarRecord;
    if inputs != [] {
      InsertedKeys(rows[ids[0] := EnvVarRecord(vault, inputs[0], ids[0])], vault, inputs[1..], ids[1..]);
      assert (set i | 0 <= i < |ids| :: ids[i]) == {ids[0]} + (set i | 0 <= i < |ids[1..]| :: ids[1..][i]) by {
        assert forall i | 0 < i < |ids| :: ids[i] == ids[1..][i - 1];
        assert forall i | 0 <= i < |ids[1..]| :: ids[1..][i] == ids[i + 1];
      }
    }
  }

  lemma {:induction false} InsertedRows(rows: map<Id, EnvVarRow>, vault: Vault, inputs: seq<EnvVarInput>, ids: seq<Id>)
    requires |ids| == |inputs| && forall i, j | 0 <= i < j < |ids| :: ids[i] != ids[j]
    ensures var after := InsertEnvVars(rows, vault, inputs, ids);
      && (forall i | 0 <= i < |ids| :: ids[i] in after && after[ids[i]] == EnvVarRecord(vault, inputs[i], ids[i]))
      && (forall x | x in rows && x !in ids :: x in after && after[x] == rows[x])
    decreases |inputs|
  {
    hide EnvVarRecord;
    if inputs != [] {
      var first := rows[ids[0] := EnvVarRecord(vault, inputs[0], ids[0])];
      InsertedRows(first, vault, inputs[1..], ids[1..]);
      assert ids[0] !in ids[1..];
      assert forall i | 0 < i < |ids| :: ids[i] == ids[1..][i - 1] && inputs[i] == inputs[1..][i - 1];
    }
  }

  /** A bulk insert of distinct identifiers: all rows hold their inputs, in order, or nothing changes. */
  lemma EnvVarsCreated(t: Tables, vault: Vault, inputs: seq<EnvVarInput>, ids: seq<Id>)
    requires |ids| == |inputs| && forall i, j | 0 <= i < j < |ids| :: ids[i] != ids[j]
    ensures var (u, r) := CreateEnvVars(t, vault, inputs, ids);
      && (r.Ok? <==> forall i | 0 <= i < |inputs| :: NamesOwn(t, inputs[i]))
      && (r.Err? ==> u == t)
      && (r.Ok? ==>
            && |r.value| == |inputs| && u == t.(envVars := u.envVars)
            && u.envVars.Keys == t.envVars.Keys + (set i | 0 <= i < |ids| :: ids[i])
            && (forall i | 0 <= i < |ids| :: Holds(vault, u.envVars[ids[i]], r.value[i], inputs[i], ids[i]))
            && (forall x | x in t.envVars && x !in ids :: u.envVars[x] == t.envVars[x]))
  {
    hide NamesOwn, Crypto.EncryptSecret, Crypto.DecryptSecret;
    EnvVarsChecked(t, inputs);
    InsertedKeys(t.envVars, vault, inputs, ids);
    InsertedRows(t.envVars, vault, inputs, ids);
    forall i | 0 <= i < |inputs|
      ensures Holds(vault, EnvVarRecord(vault, inputs[i], ids[i]), EnvVarReply(EnvVarRecord(vault, inputs[i], ids[i])),
                    inputs[i], ids[i])
    {
      Crypto.DecryptEncrypt(vault.sha256, vault.secretKey, inputs[i].value);
    }
  }

  /** A role row is added behind the others, and nothing else changes. */
  lemma RoleGranted(t: Tables, row: RoleRow)
    ensures GrantRole(t, row).roles == t.roles + [row] && GrantRole(t, row).(roles := t.roles) == t
  {
  }

  /** Access is a super admin's, or comes with a role of that workspace; administration asks for the admin role. */
  lemma AccessIff(user: User, workspaceId: Id)
    ensures CanAccessWorkspace(user, workspaceId) <==>
      user.role == SuperAdmin || exists role: Role :: WorkspaceRole(workspaceId, role) in user.workspaceRoles
    ensures CanAdministerWorkspace(user, workspaceId) <==>
      user.role == SuperAdmin || WorkspaceRole(workspaceId, Admin) in user.workspaceRoles
  {
    if i :| 0 <= i < |user.workspaceRoles| && user.workspaceRoles[i].workspaceId == workspaceId {
      assert WorkspaceRole(workspaceId, user.workspaceRoles[i].role) in user.workspaceRoles;
    }
  }
}
