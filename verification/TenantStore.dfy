/** The workspace, service and env-var services over one database, updated in place. */
module TenantStore {
  import opened Wrappers
  import opened Models
  import opened Tenancy
  import Crypto

  // ---------- listing ----------

  ghost predicate OrderedById(ws: seq<Workspace>) {
    forall i, j | 0 <= i < j < |ws| :: ws[i].id <= ws[j].id
  }

  ghost predicate StrictlyOrderedById(ws: seq<Workspace>) {
    forall i, j | 0 <= i < j < |ws| :: ws[i].id < ws[j].id
  }

  function InsertById(w: Workspace, ws: seq<Workspace>): (r: seq<Workspace>)
    requires OrderedById(ws)
    ensures OrderedById(r)
    ensures forall x :: x in r <==> x == w || x in ws
  {
    if ws == [] || w.id < ws[0].id then [w] + ws
    else
      assert ws == [ws[0]] + ws[1..];
      var rest := InsertById(w, ws[1..]);
      assert forall x | x in rest :: ws[0].id <= x.id;
      [ws[0]] + rest
  }

  /** `sort_by_key`: ordered by id. */
  function SortById(ws: seq<Workspace>): (r: seq<Workspace>)
    ensures OrderedById(r)
    ensures forall x :: x in r <==> x in ws
  {
    if ws == [] then []
    else
      assert ws == ws[..|ws| - 1] + [ws[|ws| - 1]];
      InsertById(ws[|ws| - 1], SortById(ws[..|ws| - 1]))
  }

  lemma {:induction false} InsertPermutes(w: Workspace, ws: seq<Workspace>)
    requires OrderedById(ws)
    ensures multiset(InsertById(w, ws)) == multiset(ws) + multiset{w}
  {
    if ws != [] && ws[0].id <= w.id {
      InsertPermutes(w, ws[1..]);
      assert ws == [ws[0]] + ws[1..];
    }
  }

  /** Sorting adds and loses nothing. */
  lemma {:induction false} SortPermutes(ws: seq<Workspace>)
    ensures multiset(SortById(ws)) == multiset(ws)
  {
    if ws != [] {
      var n := |ws| - 1;
      SortPermutes(ws[..n]);
      InsertPermutes(ws[n], SortById(ws[..n]));
      assert ws == ws[..n] + [ws[n]];
    }
  }

  /** `dedup_by_key`: of neighbours with the same id the first stays. */
  method DedupById(ws: seq<Workspace>) returns (r: seq<Workspace>)
    requires OrderedById(ws)
    requires forall a, b | a in ws && b in ws && a.id == b.id :: a == b
    ensures StrictlyOrderedById(r)
    ensures forall w :: w in r <==> w in ws
  {
    r := [];
    for i := 0 to |ws|
      invariant StrictlyOrderedById(r)
      invariant i == 0 ==> r == []
      invariant i > 0 ==> r != [] && r[|r| - 1] == ws[i - 1]
      invariant forall w :: w in r <==> w in ws[..i]
    {
      assert ws[..i + 1] == ws[..i] + [ws[i]];
      assert i > 0 ==> ws[i - 1] in ws && ws[i] in ws;
      if r == [] || r[|r| - 1].id != ws[i].id {
        r := r + [ws[i]];
      }
    }
    assert ws[..|ws|] == ws;
  }

  class Store {
    var workspaces: map<Id, Workspace>
    var environments: map<Id, Environment>
    var services: map<Id, AppService>
    var envVars: map<Id, EnvVarRow>
    var roles: seq<RoleRow>
    const vault: Vault

    ghost function View(): Tables
      reads this
    {
      Tables(workspaces, environments, services, envVars, roles)
    }

    constructor (vault: Vault)
      ensures View() == EMPTY && this.vault == vault
    {
      workspaces, environments, services, envVars, roles := map[], map[], map[], map[], [];
      this.vault := vault;
    }

    /**
      * Exactly the existing workspaces the user may access, each once; for anyone but a super
      * admin in strictly increasing id order, whatever repetitions the user's roles hold.
      */
    method ListAccessibleWorkspaces(user: User) returns (r: seq<Workspace>)
      requires forall w | w in workspaces :: workspaces[w].id == w
      ensures forall w: Workspace ::
        w in r <==> w.id in workspaces && workspaces[w.id] == w && CanAccessWorkspace(user, w.id)
      ensures forall i, j | 0 <= i < j < |r| :: r[i].id != r[j].id
      ensures user.role != SuperAdmin ==> StrictlyOrderedById(r)
    {
      r := [];
      if user.role == SuperAdmin {
        r := ListWorkspaces();
        return;
      }
      for i := 0 to |user.workspaceRoles|
        invariant forall w: Workspace :: w in r <==>
          && w.id in workspaces && workspaces[w.id] == w
          && exists j :: 0 <= j < i && user.workspaceRoles[j].workspaceId == w.id
      {
        var id := user.workspaceRoles[i].workspaceId;
        if id in workspaces {
          r := r + [workspaces[id]];
        }
      }
      r := SortById(r);
      r := DedupById(r);
    }

    /** Every row once, in no promised order. */
    method ListWorkspaces() returns (r: seq<Workspace>)
      requires forall w | w in workspaces :: workspaces[w].id == w
      ensures forall w: Workspace :: w in r <==> w.id in workspaces && workspaces[w.id] == w
      ensures forall i, j | 0 <= i < j < |r| :: r[i].id != r[j].id
    {
      r := [];
      var rest := workspaces.Keys;
      while rest != {}
        invariant rest <= workspaces.Keys
        invariant forall w: Workspace :: w in r <==> w.id in workspaces.Keys - rest && workspaces[w.id] == w
        invariant forall i, j | 0 <= i < j < |r| :: r[i].id != r[j].id
        decreases rest
      {
        var id :| id in rest;
        assert forall w | w in r :: w.id != id;
        assert forall i | 0 <= i < |r| :: r[i] in r;
        r := r + [workspaces[id]];
        rest := rest - {id};
      }
    }

    method CreateWorkspace(name: string, description: Option<string>, id: Id, environmentId: Id) returns (w: Workspace)
      modifies this
      ensures (View(), w) == Tenancy.CreateWorkspace(old(View()), name, description, id, environmentId)
    {
      w := Workspace(id, name, description);
      workspaces := workspaces[id := w];
      environments := environments[environmentId := Environment(environmentId, w.id, "production")];
    }

    method CreateEnvironment(workspaceId: Id, name: string, id: Id) returns (r: Result<Environment, ApiError>)
      modifies this
      ensures (View(), r) == Tenancy.CreateEnvironment(old(View()), workspaceId, name, id)
    {
      if workspaceId !in workspaces {
        return Err(NotFound("workspace"));
      }
      var environment := Environment(id, workspaceId, name);
      environments := environments[id := environment];
      r := Ok(environment);
    }

    method CreateService(input: ServiceInput, id: Id) returns (r: Result<AppService, ApiError>)
      modifies this
      ensures (View(), r) == Tenancy.CreateService(old(View()), input, id)
    {
      if input.workspaceId !in workspaces {
        return Err(NotFound("workspace"));
      }
      if input.environmentId !in environments
         || environments[input.environmentId].workspaceId != input.workspaceId {
        return Err(NotFound("environment"));
      }
      var service := AppService(id, input.workspaceId, input.environmentId, input.name, input.deployKind, input.image,
                                input.composeFile, input.dockerfile, input.internalPort);
      services := services[id := service];
      r := Ok(service);
    }

    method GetService(id: Id) returns (r: Result<AppService, ApiError>)
      ensures r == if id in services then Ok(services[id]) else Err(NotFound("service"))
    {
      r := if id in services then Ok(services[id]) else Err(NotFound("service"));
    }

    method ValidateEnvVarScope(input: EnvVarInput) returns (error: Option<ApiError>)
      ensures error == ScopeError(View(), input)
    {
      if input.workspaceId !in workspaces {
        return Some(NotFound("workspace"));
      }
      if input.environmentId.Some? {
        var e := input.environmentId.value;
        if e !in environments || environments[e].workspaceId != input.workspaceId {
          return Some(NotFound("environment"));
        }
      }
      if input.serviceId.Some? {
        var service := GetService(input.serviceId.value);
        if service.Err? {
          return Some(service.error);
        }
        if service.value.workspaceId != input.workspaceId {
          return Some(NotFound("service"));
        }
      }
      return None;
    }

    method CreateEnvVar(input: EnvVarInput, id: Id) returns (r: Result<EnvVarResponse, ApiError>)
      modifies this
      ensures (View(), r) == Tenancy.CreateEnvVar(old(View()), vault, input, id)
    {
      var error := ValidateEnvVarScope(input);
      if error.Some? {
        return Err(error.value);
      }
      var row := EnvVarRecord(vault, input, id);
      envVars := envVars[id := row];
      r := Ok(EnvVarReply(row));
    }

    /** Validates every input, then inserts and collects; nothing is written when one is refused. */
    method CreateEnvVars(inputs: seq<EnvVarInput>, ids: seq<Id>) returns (r: Result<seq<EnvVarResponse>, ApiError>)
      requires |ids| == |inputs|
      modifies this
      ensures (View(), r) == Tenancy.CreateEnvVars(old(View()), vault, inputs, ids)
    {
      hide Crypto.EncryptSecret;
      for i := 0 to |inputs|
        invariant View() == old(View())
        invariant FirstScopeError(View(), inputs) == FirstScopeError(View(), inputs[i..])
      {
        var error := ValidateEnvVarScope(inputs[i]);
        assert inputs[i..][1..] == inputs[i + 1..];
        if error.Some? {
          return Err(error.value);
        }
      }
      assert inputs[|inputs|..] == [];
      var created := [];
      for i := 0 to |inputs|
        invariant View() == old(View()).(envVars := envVars)
        invariant InsertEnvVars(envVars, vault, inputs[i..], ids[i..])
               == InsertEnvVars(old(envVars), vault, inputs, ids)
        invariant created == EnvVarReplies(vault, inputs, ids)[..i]
      {
        assert inputs[i..][1..] == inputs[i + 1..] && ids[i..][1..] == ids[i + 1..];
        var row := EnvVarRecord(vault, inputs[i], ids[i]);
        envVars := envVars[ids[i] := row];
        created := created + [EnvVarReply(row)];
      }
      assert created == EnvVarReplies(vault, inputs, ids);
      r := Ok(created);
    }

    method GrantRole(row: RoleRow)
      modifies this
      ensures View() == Tenancy.GrantRole(old(View()), row)
    {
      roles := roles + [row];
    }
  }
}
