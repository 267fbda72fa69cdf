/** What the workspace, service and env-var operations do to the tables, and what every run keeps. */
module Tenancy {
  import opened Wrappers
  import opened Models
  import Crypto
  import Docker

  datatype Tables = Tables(
    workspaces: map<Id, Workspace>,
    environments: map<Id, Environment>,
    services: map<Id, AppService>,
    envVars: map<Id, EnvVarRow>,
    roles: seq<RoleRow>)

  const EMPTY := Tables(map[], map[], map[], map[], [])

  datatype ServiceInput = ServiceInput(workspaceId: Id, environmentId: Id, name: string,
                                       deployKind: Docker.DeployKind, image: Option<string>,
                                       composeFile: Option<string>, dockerfile: Option<string>,
                                       internalPort: Option<Port>)

  datatype EnvVarInput = EnvVarInput(workspaceId: Id, environmentId: Option<Id>, serviceId: Option<Id>,
                                     key: string, value: string)

  /** A created env var as the caller sees it: the value is masked. */
  datatype EnvVarResponse = EnvVarResponse(id: Id, workspaceId: Id, environmentId: Option<Id>,
                                           serviceId: Option<Id>, key: string, value: string)

  /** How values are stored: the hash and master key of the credential service. */
  datatype Vault = Vault(sha256: Crypto.HashFunction, secretKey: string)

  predicate EnvironmentListed(t: Tables, workspaceId: Id, environmentId: Id) {
    environmentId in t.environments && t.environments[environmentId].workspaceId == workspaceId
  }

  function CreateWorkspace(t: Tables, name: string, description: Option<string>, id: Id, environmentId: Id)
    : (Tables, Workspace)
  {
    var w := Workspace(id, name, description);
    (t.(workspaces := t.workspaces[id := w],
        environments := t.environments[environmentId := Environment(environmentId, id, "production")]), w)
  }

  function CreateEnvironment(t: Tables, workspaceId: Id, name: string, id: Id): (Tables, Result<Environment,
                             ApiError>)
  {
    if workspaceId !in t.workspaces then (t, Err(NotFound("workspace")))
    else
      var e := Environment(id, workspaceId, name);
      (t.(environments := t.environments[id := e]), Ok(e))
  }

  function CreateService(t: Tables, input: ServiceInput, id: Id): (Tables, Result<AppService, ApiError>) {
    if input.workspaceId !in t.workspaces then (t, Err(NotFound("workspace")))
    else if !EnvironmentListed(t, input.workspaceId, input.environmentId) then (t, Err(NotFound("environment")))
    else
      var s := AppService(id, input.workspaceId, input.environmentId, input.name, input.deployKind, input.image,
                          input.composeFile, input.dockerfile, input.internalPort);
      (t.(services := t.services[id := s]), Ok(s))
  }

  /** Why an env var may not be stored, if it may not. */
  function ScopeError(t: Tables, input: EnvVarInput): Option<ApiError> {
    if input.workspaceId !in t.workspaces then Some(NotFound("workspace"))
    else if input.environmentId.Some? && !EnvironmentListed(t, input.workspaceId, input.environmentId.value)
    then Some(NotFound("environment"))
    else if input.serviceId.Some? && input.serviceId.value !in t.services then Some(NotFound("service"))
    else if input.serviceId.Some? && t.services[input.serviceId.value].workspaceId != input.workspaceId
    then Some(NotFound("service"))
    else None
  }

  function EnvVarRecord(vault: Vault, input: EnvVarInput, id: Id): EnvVarRow {
    EnvVarRow(id, input.workspaceId, input.environmentId, input.serviceId, input.key,
              Crypto.EncryptSecret(vault.sha256, vault.secretKey, input.value))
  }

  function EnvVarReply(row: EnvVarRow): EnvVarResponse {
    EnvVarResponse(row.id, row.workspaceId, row.environmentId, row.serviceId, row.key, "********")
  }

  function CreateEnvVar(t: Tables, vault: Vault, input: EnvVarInput, id: Id): (Tables, Result<EnvVarResponse,
                        ApiError>)
  {
    match ScopeError(t, input)
    case Some(error) => (t, Err(error))
    case None =>
      var row := EnvVarRecord(vault, input, id);
      (t.(envVars := t.envVars[id := row]), Ok(EnvVarReply(row)))
  }

  function FirstScopeError(t: Tables, inputs: seq<EnvVarInput>): Option<ApiError> {
    if inputs == [] then None
    else if ScopeError(t, inputs[0]).Some? then ScopeError(t, inputs[0])
    else FirstScopeError(t, inputs[1..])
  }

  function InsertEnvVars(rows: map<Id, EnvVarRow>, vault: Vault, inputs: seq<EnvVarInput>, ids: seq<Id>): map<Id,
                         EnvVarRow>
    requires |ids| == |inputs|
    decreases |inputs|
  {
    if inputs == [] then rows
    else InsertEnvVars(rows[ids[0] := EnvVarRecord(vault, inputs[0], ids[0])], vault, inputs[1..], ids[1..])
  }

  function EnvVarReplies(vault: Vault, inputs: seq<EnvVarInput>, ids: seq<Id>): seq<EnvVarResponse>
    requires |ids| == |inputs|
  {
    seq(|inputs|, i requires 0 <= i < |inputs| => EnvVarReply(EnvVarRecord(vault, inputs[i], ids[i])))
  }

  /** Everything is checked first; then everything is inserted in one transaction. */
  function CreateEnvVars(t: Tables, vault: Vault, inputs: seq<EnvVarInput>, ids: seq<Id>)
    : (Tables, Result<seq<EnvVarResponse>, ApiError>)
    requires |ids| == |inputs|
  {
    match FirstScopeError(t, inputs)
    case Some(error) => (t, Err(error))
    case None =>
      (t.(envVars := InsertEnvVars(t.envVars, vault, inputs, ids)), Ok(EnvVarReplies(vault, inputs, ids)))
  }

  /** The role row an invitation inserts, once its workspace has been found. */
  function GrantRole(t: Tables, row: RoleRow): Tables {
    t.(roles := t.roles + [row])
  }

  // ---------- the bulk insert is the fold of single inserts ----------

  /** One insert after another, stopping at the first that fails. */
  function FoldEnvVars(t: Tables, vault: Vault, inputs: seq<EnvVarInput>, ids: seq<Id>)
    : (Tables, Result<seq<EnvVarResponse>, ApiError>)
    requires |ids| == |inputs|
    decreases |inputs|
  {
    if inputs == [] then (t, Ok([]))
    else
      var (t1, first) := CreateEnvVar(t, vault, inputs[0], ids[0]);
      match first
      case Err(error) => (t1, Err(error))
      case Ok(reply) =>
        var (t2, rest) := FoldEnvVars(t1, vault, inputs[1..], ids[1..]);
        match rest
        case Err(error) => (t2, Err(error))
        case Ok(replies) => (t2, Ok([reply] + replies))
  }

  lemma {:induction false} ScopeIgnoresEnvVars(t: Tables, rows: map<Id, EnvVarRow>, inputs: seq<EnvVarInput>)
    ensures FirstScopeError(t.(envVars := rows), inputs) == FirstScopeError(t, inputs)
  {
    if inputs != [] {
      ScopeIgnoresEnvVars(t, rows, inputs[1..]);
    }
  }

  /** All or nothing, and the same replies, error and rows as the single inserts in order. */
  lemma {:induction false} BulkIsFold(t: Tables, vault: Vault, inputs: seq<EnvVarInput>, ids: seq<Id>)
    requires |ids| == |inputs|
    ensures CreateEnvVars(t, vault, inputs, ids).1 == FoldEnvVars(t, vault, inputs, ids).1
    ensures CreateEnvVars(t, vault, inputs, ids).0
         == (if FoldEnvVars(t, vault, inputs, ids).1.Ok? then FoldEnvVars(t, vault, inputs, ids).0 else t)
    decreases |inputs|
  {
    if inputs != [] && ScopeError(t, inputs[0]).None? {
      var t1 := CreateEnvVar(t, vault, inputs[0], ids[0]).0;
      BulkIsFold(t1, vault, inputs[1..], ids[1..]);
      ScopeIgnoresEnvVars(t, t1.envVars, inputs[1..]);
      assert EnvVarReplies(vault, inputs, ids)
          == [EnvVarReply(EnvVarRecord(vault, inputs[0], ids[0]))] + EnvVarReplies(vault, inputs[1..], ids[1..]);
    } else if inputs == [] {
      assert EnvVarReplies(vault, inputs, ids) == [];
    }
  }

  /** What was stored decrypts to what was given, and the caller is shown none of it. */
  lemma StoredValueDecrypts(t: Tables, vault: Vault, input: EnvVarInput, id: Id)
    requires CreateEnvVar(t, vault, input, id).1.Ok?
    ensures id in CreateEnvVar(t, vault, input, id).0.envVars
    ensures Crypto.DecryptSecret(vault.sha256, vault.secretKey,
              CreateEnvVar(t, vault, input, id).0.envVars[id].encryptedValue) == Ok(input.value)
    ensures CreateEnvVar(t, vault, input, id).1.value.value == "********"
  {
    Crypto.DecryptEncrypt(vault.sha256, vault.secretKey, input.value);
  }

  // ---------- every run ----------

  datatype Action =
    | AddWorkspace(name: string, description: Option<string>, id: Id, environmentId: Id)
    | AddEnvironment(workspaceId: Id, envName: string, id: Id)
    | AddService(service: ServiceInput, id: Id)
    | AddEnvVar(envVar: EnvVarInput, id: Id)
    | AddEnvVars(inputs: seq<EnvVarInput>, ids: seq<Id>)
    | AddRole(row: RoleRow)

  /** Fresh identifiers; a role row is only inserted for a workspace that was found. */
  predicate Enabled(t: Tables, a: Action) {
    match a
    case AddWorkspace(_, _, id, environmentId) => id !in t.workspaces && environmentId !in t.environments
    case AddEnvironment(_, _, id) => id !in t.environments
    case AddService(_, id) => id !in t.services
    case AddEnvVar(_, id) => id !in t.envVars
    case AddEnvVars(inputs, ids) => |ids| == |inputs|
    case AddRole(row) => row.workspaceId in t.workspaces
  }

  function Next(t: Tables, vault: Vault, a: Action): Tables
    requires Enabled(t, a)
  {
    match a
    case AddWorkspace(name, description, id, environmentId) =>
      CreateWorkspace(t, name, description, id, environmentId).0
    case AddEnvironment(workspaceId, name, id) => CreateEnvironment(t, workspaceId, name, id).0
    case AddService(input, id) => CreateService(t, input, id).0
    case AddEnvVar(input, id) => CreateEnvVar(t, vault, input, id).0
    case AddEnvVars(inputs, ids) => CreateEnvVars(t, vault, inputs, ids).0
    case AddRole(row) => GrantRole(t, row)
  }

  /** The states some run of enabled calls leads through, from the empty database. */
  ghost predicate IsRun(vault: Vault, states: seq<Tables>, actions: seq<Action>) {
    && |states| == |actions| + 1
    && states[0] == EMPTY
    && forall i | 0 <= i < |actions| ::
         Enabled(states[i], actions[i]) && states[i + 1] == Next(states[i], vault, actions[i])
  }

  ghost predicate EnvVarInScope(t: Tables, v: EnvVarRow) {
    && v.workspaceId in t.workspaces
    && (v.environmentId.Some? ==> EnvironmentListed(t, v.workspaceId, v.environmentId.value))
    && (v.serviceId.Some? ==> v.serviceId.value in t.services
                              && t.services[v.serviceId.value].workspaceId == v.workspaceId)
  }

  ghost predicate AllInScope(t: Tables, rows: map<Id, EnvVarRow>) {
    forall v | v in rows :: EnvVarInScope(t, rows[v])
  }

  ghost predicate HasEnvironment(t: Tables, workspaceId: Id) {
    exists e :: e in t.environments && t.environments[e].workspaceId == workspaceId
  }

  /** Referential integrity across the tables, none of it enforced by the database. */
  ghost predicate Tenanted(t: Tables) {
    && (forall w | w in t.workspaces :: t.workspaces[w].id == w && HasEnvironment(t, w))
    && (forall e | e in t.environments :: t.environments[e].id == e && t.environments[e].workspaceId in t.workspaces)
    && (forall i | 0 <= i < |t.roles| :: t.roles[i].workspaceId in t.workspaces)
    && (forall s | s in t.services ::
          && t.services[s].id == s
          && t.services[s].workspaceId in t.workspaces
          && EnvironmentListed(t, t.services[s].workspaceId, t.services[s].environmentId))
    && AllInScope(t, t.envVars)
  }

  lemma {:induction false} InsertKeepsScope(t: Tables, rows: map<Id, EnvVarRow>, vault: Vault,
                                            inputs: seq<EnvVarInput>, ids: seq<Id>)
    requires |ids| == |inputs| && FirstScopeError(t, inputs).None?
    requires AllInScope(t, rows)
    ensures AllInScope(t, InsertEnvVars(rows, vault, inputs, ids))
    decreases |inputs|
  {
    if inputs != [] {
      InsertKeepsScope(t, rows[ids[0] := EnvVarRecord(vault, inputs[0], ids[0])], vault, inputs[1..], ids[1..]);
    }
  }

  lemma EnvironmentsKept(t: Tables, t': Tables)
    requires t.workspaces.Keys <= t'.workspaces.Keys
    requires forall e | e in t.environments :: e in t'.environments && t'.environments[e] == t.environments[e]
    ensures forall w | HasEnvironment(t, w) :: HasEnvironment(t', w)
  {
    forall w | HasEnvironment(t, w)
      ensures HasEnvironment(t', w)
    {
      var e :| e in t.environments && t.environments[e].workspaceId == w;
      assert e in t'.environments && t'.environments[e].workspaceId == w;
    }
  }

  lemma AddWorkspaceKeeps(t: Tables, name: string, description: Option<string>, id: Id, environmentId: Id)
    requires Tenanted(t) && id !in t.workspaces && environmentId !in t.environments
    ensures Tenanted(CreateWorkspace(t, name, description, id, environmentId).0)
  {
    var t' := CreateWorkspace(t, name, description, id, environmentId).0;
    EnvironmentsKept(t, t');
    assert environmentId in t'.environments && t'.environments[environmentId].workspaceId == id;
    assert HasEnvironment(t', id);
    assert forall v | v in t.envVars :: EnvVarInScope(t, t.envVars[v]) ==> EnvVarInScope(t', t.envVars[v]);
  }

  lemma AddEnvironmentKeeps(t: Tables, workspaceId: Id, name: string, id: Id)
    requires Tenanted(t) && id !in t.environments
    ensures Tenanted(CreateEnvironment(t, workspaceId, name, id).0)
  {
    var t' := CreateEnvironment(t, workspaceId, name, id).0;
    EnvironmentsKept(t, t');
    assert forall v | v in t.envVars :: EnvVarInScope(t, t.envVars[v]) ==> EnvVarInScope(t', t.envVars[v]);
  }

  lemma AddServiceKeeps(t: Tables, input: ServiceInput, id: Id)
    requires Tenanted(t) && id !in t.services
    ensures Tenanted(CreateService(t, input, id).0)
  {
    var t' := CreateService(t, input, id).0;
    EnvironmentsKept(t, t');
    assert forall v | v in t.envVars :: EnvVarInScope(t, t.envVars[v]) ==> EnvVarInScope(t', t.envVars[v]);
  }

  /** New rows in scope, and nothing else new. */
  lemma EnvVarRowsKeep(t: Tables, rows: map<Id, EnvVarRow>)
    requires Tenanted(t) && AllInScope(t, rows)
    ensures Tenanted(t.(envVars := rows))
  {
    var t' := t.(envVars := rows);
    EnvironmentsKept(t, t');
    assert forall v | v in rows :: EnvVarInScope(t, rows[v]) ==> EnvVarInScope(t', rows[v]);
  }

  lemma AddRoleKeeps(t: Tables, row: RoleRow)
    requires Tenanted(t) && row.workspaceId in t.workspaces
    ensures Tenanted(GrantRole(t, row))
  {
    var t' := GrantRole(t, row);
    EnvironmentsKept(t, t');
    assert forall v | v in t.envVars :: EnvVarInScope(t, t.envVars[v]) ==> EnvVarInScope(t', t.envVars[v]);
  }

  lemma NextKeepsTenanted(t: Tables, vault: Vault, a: Action)
    requires Tenanted(t) && Enabled(t, a)
    ensures Tenanted(Next(t, vault, a))
  {
    match a {
      case AddWorkspace(name, description, id, environmentId) =>
        AddWorkspaceKeeps(t, name, description, id, environmentId);
      case AddEnvironment(workspaceId, name, id) =>
        AddEnvironmentKeeps(t, workspaceId, name, id);
      case AddService(input, id) =>
        AddServiceKeeps(t, input, id);
      case AddEnvVar(input, id) =>
        EnvVarRowsKeep(t, Next(t, vault, a).envVars);
      case AddEnvVars(inputs, ids) =>
        if FirstScopeError(t, inputs).None? {
          InsertKeepsScope(t, t.envVars, vault, inputs, ids);
          EnvVarRowsKeep(t, InsertEnvVars(t.envVars, vault, inputs, ids));
        }
      case AddRole(row) =>
        AddRoleKeeps(t, row);
    }
  }

  /** Every state of every run is referentially sound. */
  lemma {:induction false} RunsAreTenanted(vault: Vault, states: seq<Tables>, actions: seq<Action>)
    requires IsRun(vault, states, actions)
    ensures forall i | 0 <= i < |states| :: Tenanted(states[i])
    decreases |actions|
  {
    if actions != [] {
      var n := |actions|;
      RunsAreTenanted(vault, states[..n], actions[..n - 1]);
      assert states[..n][n - 1] == states[n - 1];
      NextKeepsTenanted(states[n - 1], vault, actions[n - 1]);
      assert forall i | 0 <= i < n :: Tenanted(states[i]) by {
        assert forall i | 0 <= i < n :: states[..n][i] == states[i];
      }
    }
  }
}
