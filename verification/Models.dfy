/** The rows and values the services share. Identifiers are ordered numbers, instants nanoseconds. */
module Models {
  import opened Wrappers
  import Docker

  type Id = nat
  type Instant = nat

  datatype ApiError =
    | Unauthorized
    | Forbidden
    | NotFound(what: string)
    | BadRequest(message: string)
    | Internal(message: string)

  datatype Role = SuperAdmin | Admin | Operator | Viewer

  datatype UserStatus = Invited | Active | Disabled

  datatype WorkspaceRole = WorkspaceRole(workspaceId: Id, role: Role)

  datatype User = User(id: Id, email: string, name: string, role: Role, status: UserStatus,
                       workspaceRoles: seq<WorkspaceRole>)

  datatype Workspace = Workspace(id: Id, name: string, description: Option<string>)

  datatype Environment = Environment(id: Id, workspaceId: Id, name: string)

  type Port = p: nat | p < 0x1_0000

  datatype AppService = AppService(id: Id, workspaceId: Id, environmentId: Id, name: string,
                                   deployKind: Docker.DeployKind, image: Option<string>,
                                   composeFile: Option<string>, dockerfile: Option<string>, internalPort: Option<Port>)

  datatype EnvVarRow = EnvVarRow(id: Id, workspaceId: Id, environmentId: Option<Id>, serviceId: Option<Id>,
                                 key: string, encryptedValue: string)

  datatype RoleRow = RoleRow(id: Id, userId: Id, workspaceId: Id, role: Role)

  predicate CanAccessWorkspace(user: User, workspaceId: Id) {
    || user.role == SuperAdmin
    || exists i :: 0 <= i < |user.workspaceRoles| && user.workspaceRoles[i].workspaceId == workspaceId
  }

  predicate CanAdministerWorkspace(user: User, workspaceId: Id) {
    || user.role == SuperAdmin
    || exists i :: 0 <= i < |user.workspaceRoles|
                   && user.workspaceRoles[i] == WorkspaceRole(workspaceId, Admin)
  }
}
