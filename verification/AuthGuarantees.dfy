/** What holds of the service object itself, after its first start and any calls on it. */
module AuthGuarantees {
  import opened Wrappers
  import opened Models
  import opened AuthModel
  import opened AuthSteps
  import opened AuthRuns
  import opened AuthInvariants
  import opened AuthSessions
  import opened AuthPeople
  import AuthService
  import Tenancy

  /** What every run keeps holds of a service that was started once and then only called. */
  lemma ReachableKeeps(service: AuthService.Service, user: Id)
    requires Lawful(service.p) && service.Reachable()
    ensures Inv(service.p, service.View()) && service.Valid()
    ensures ActiveAdmins(service.users) != {}
    ensures ChainsOk(Chains(service.log), service.refresh)
    ensures |Unrevoked(service.refresh, user)|
         == TotalGain(service.p, service.states, service.actions, |service.actions|, user)
  {
    hide IsRun, Lawful, KeysOk, ChainsOk, Chains, Unrevoked;
    var n := |service.actions|;
    AuthService.LastOfRun(service.p, service.states, service.actions);
    RunsKeepInv(service.p, service.states, service.actions, n);
    AlwaysAnAdmin(service.p, service.states, service.actions, n);
    RunsKeepChains(service.p, service.states, service.actions, n);
    SessionsAreConserved(service.p, service.states, service.actions, n, user);
  }

  // ---------- calls on the shared store, recorded as steps of the run ----------

  method CreateWorkspace(service: AuthService.Service, name: string, description: Option<string>, id: Id,
                         environmentId: Id)
    returns (w: Workspace)
    requires service.Reachable()
    requires id !in service.store.workspaces && environmentId !in service.store.environments
    modifies service.store, service`states, service`actions
    ensures service.Reachable()
    ensures (service.store.View(), w)
         == Tenancy.CreateWorkspace(old(service.store.View()), name, description, id, environmentId)
  {
    hide IsRun;
    ghost var before := service.View();
    w := service.store.CreateWorkspace(name, description, id, environmentId);
    service.Record(before, DoTenant(service.store.vault, Tenancy.AddWorkspace(name, description, id, environmentId)));
  }

  method CreateEnvironment(service: AuthService.Service, workspaceId: Id, name: string, id: Id)
    returns (r: Result<Environment, ApiError>)
    requires service.Reachable() && id !in service.store.environments
    modifies service.store, service`states, service`actions
    ensures service.Reachable()
    ensures (service.store.View(), r) == Tenancy.CreateEnvironment(old(service.store.View()), workspaceId, name, id)
  {
    hide IsRun;
    ghost var before := service.View();
    r := service.store.CreateEnvironment(workspaceId, name, id);
    service.Record(before, DoTenant(service.store.vault, Tenancy.AddEnvironment(workspaceId, name, id)));
  }

  method CreateService(service: AuthService.Service, input: Tenancy.ServiceInput, id: Id)
    returns (r: Result<AppService, ApiError>)
    requires service.Reachable() && id !in service.store.services
    modifies service.store, service`states, service`actions
    ensures service.Reachable()
    ensures (service.store.View(), r) == Tenancy.CreateService(old(service.store.View()), input, id)
  {
    hide IsRun;
    ghost var before := service.View();
    r := service.store.CreateService(input, id);
    service.Record(before, DoTenant(service.store.vault, Tenancy.AddService(input, id)));
  }

  method CreateEnvVar(service: AuthService.Service, input: Tenancy.EnvVarInput, id: Id)
    returns (r: Result<Tenancy.EnvVarResponse, ApiError>)
    requires service.Reachable() && id !in service.store.envVars
    modifies service.store, service`states, service`actions
    ensures service.Reachable()
    ensures (service.store.View(), r) == Tenancy.CreateEnvVar(old(service.store.View()), service.store.vault, input, id)
  {
    hide IsRun;
    ghost var before := service.View();
    r := service.store.CreateEnvVar(input, id);
    service.Record(before, DoTenant(service.store.vault, Tenancy.AddEnvVar(input, id)));
  }

  method CreateEnvVars(service: AuthService.Service, inputs: seq<Tenancy.EnvVarInput>, ids: seq<Id>)
    returns (r: Result<seq<Tenancy.EnvVarResponse>, ApiError>)
    requires service.Reachable() && |ids| == |inputs|
    modifies service.store, service`states, service`actions
    ensures service.Reachable()
    ensures (service.store.View(), r)
         == Tenancy.CreateEnvVars(old(service.store.View()), service.store.vault, inputs, ids)
  {
    hide IsRun;
    ghost var before := service.View();
    r := service.store.CreateEnvVars(inputs, ids);
    service.Record(before, DoTenant(service.store.vault, Tenancy.AddEnvVars(inputs, ids)));
  }
}
