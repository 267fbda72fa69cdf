# Verified model of the wara backend

A Dafny model of the parts of the backend where correctness is not visible from one function:
the authentication service and its tables, the typed shell-command builder, the byte and string
transforms that protect secrets, and the tenancy rules between workspaces, environments,
services and env vars. `dafny verify dfyconfig.toml` checks the whole project.

## What is modelled

**Authentication** (`AuthModel`, `AuthSteps`, `AuthRuns`, `AuthChanges`, `AuthInvariants`,
`AuthSessions`, `AuthTokens`, `AuthLifetimes`, `AuthPeople`, `AuthEffects`, `AuthOutcomes`,
`AuthService`, `AuthGuarantees`, `AuthExample`). `AuthService.Service` is the service as a class over
its tables, updated in place.
Every method is proved equal to a step function of `AuthSteps` on the old state, for the new state
and the answer together, and keeps `Reachable()`: the tables are the last state of a run.
`AuthGuarantees.ReachableKeeps` turns what every run keeps into guarantees about the object.
`AuthRuns.IsRun` is any sequence of those steps, in any order and with any arguments, after a first
start on an empty database; restarts with other signing keys are steps too. `AuthChanges` breaks
each step into at most three elementary updates with the checks that precede them, and the
invariants are proved once per update. `AuthEffects` and `AuthOutcomes` say of each call when it
succeeds, whom it answers and all it changes, without the functions it is made of; the other results
are about every state of every run.

The assumptions are these. Each call is one atomic step (the code takes no locks, so interleaved
calls are not covered); `accept_invite` can also stop between its two updates. Each call reads the
clock once, and nothing is assumed about the order of the readings. New identifiers are unused
ones. A restart keeps issuer and audience and has a key pair that belongs together, which start-up
verifies (`backend/src/libs/config.rs:350-403`). SHA-256, Argon2, RS256 and UUID text are
parameters: `AuthModel.Lawful` lists all that is assumed of them (a stored hash is not empty and
verifies its password; an identifier's text is read back; a token keeps its header and payload,
verifies under the signing key's public half and never starts with `wara_`; what has a JWT header
contains a dot), and `AuthExample` shows that these laws can be met together. Users, invites, API
tokens and refresh rows are maps by identifier; the key and role tables are sequences, in insertion
order, because the code takes the first match of a query.

**Commands** (`ShellLexer`, `Docker`, `Paths`, `Deployments`). The specification is a lexer for
POSIX words and operators (IEEE Std 1003.1-2017, Shell Command Language, sections 2.2.1-2.2.3 and
2.3) that remembers for each character whether it was quoted. Rendering a command and lexing it
are proved to undo each other, for all arguments; every deploy plan is proved to read as the
words and operators it was meant to have; transcripts of previewed deploys are proved to be
readable back.

**Secrets** (`Utf8`, `Base64`, `Crypto`, `Text`, `Redaction`, `DeployExecutor`, `Ssh`). UTF-8
(RFC 3629), base64 (RFC 4648, section 4) and XOR with a repeating 32-byte key are modelled octet
by octet. Redaction is leftmost non-overlapping replacement. The comment on `redact_secrets`
(`backend/src/libs/deploy_executor.rs:70-71`) promises that captured output never leaks a secret.
That is not so for every secret: one that shares text with the marker can survive, or appear in a
text that never had it. The model follows the code and gives the exact conditions:

* a secret is hidden by every list that names it, in every text, exactly when no placement of it
  over `[redacted]` agrees on the characters they share (`DeployExecutor.HiddenByEveryListIff`);
* a secret that is the only one is hidden in every text exactly when replacing it cannot bring it
  back (`DeployExecutor.OnlySecretHiddenIff`, condition `Redaction.CanReturn`);
* each of the three keys `redact_error` scrubs has its own exact condition, from the markers that
  are written with it and after it and the length at which the message is cut
  (`Ssh.PrivateKeyHiddenIff` and its two siblings, for every cut);
* redaction is not applied to the command lines, exit lines and closing remark of a transcript, so
  a secret in one of them stays. Beyond that, a secret that does not overlap the marker is never
  shown, whatever was run, exactly when it holds no newline (`DeployExecutor.TranscriptsSafeIff`).
  One that holds a newline can be shown by the end of one line and the start of the next, and one
  that ends in a newline, as a key file does, is shown by a command that prints just it: streams
  are trimmed before they are redacted, and joining the lines puts the newline back
  (`DeployExecutor.TrimmedSecretLeaks`).

**Tenancy** (`Tenancy`, `TenancyEffects`, `TenantStore`, `Models`). `TenantStore.Store` is the workspace, service
and credential services over one database, updated in place, each method proved equal to a step of
`Tenancy`; the referential integrity that no foreign key enforces is an invariant of every run.

Four more places where the code does not do quite what one would expect, all with exact
conditions: services of one name share directory, container and image tag, even across workspaces,
and nothing keeps names apart (`Deployments.ServicesShareIff`, `Deployments.NamesMayRepeat`); an
invite is marked accepted exactly when its user has a password, in a state of a run,
if and only if no acceptance stopped between its two updates (`AuthPeople.RunsSettleIff`); the
disable guard also refuses an invited super admin while only one super admin is
active (`AuthPeople.DisableGuardExactIff`), and a preview transcript is ambiguous exactly when a
setting it uses holds a newline (`Deployments.PreviewIsInvertible`).

## Model

| member | source | states |
|---|---|---|
| AuthInvariants.RunsKeepInv | backend/src/services/auth.rs:139-450 | in every state of every run: emails and token hashes are unique, active users have a password and invited ones none, an accepted invite's user has a password, an active super admin exists, exactly one signing key is active and it is the configured one, the users of refresh and role rows exist, tenancy holds |
| AuthInvariants.StartsWithInv | backend/src/services/auth.rs:139-164 | the state after bootstrap on an empty database meets that invariant |
| AuthOutcomes.FirstStartOutcome | backend/src/services/auth.rs:139-164 | the first start makes one user, the configured active super admin, with the hash of the configured password |
| AuthOutcomes.FirstAdminLogsIn | backend/src/services/auth.rs:139-198 | behind it the configured email and password log in, as super admin |
| AuthOutcomes.LaterStartOutcome | backend/src/services/auth.rs:139-149 | a later start changes the configuration and the key table alone |
| AuthInvariants.SyncLeavesOneActiveKey | backend/src/services/auth.rs:592-652 | from any key table one sync leaves exactly one active row with the configured key, keeps every row's id and key, adds a row only for an unknown key, and never makes a key stored twice |
| AuthInvariants.SyncAgainChangesNothing | backend/src/services/auth.rs:592-652 | a second sync with the same key changes nothing, whatever the table held before the first |
| AuthChanges.NextIsChanges | backend/src/services/auth.rs:139-534 | every call is a short sequence of elementary updates whose preconditions hold when they happen |
| AuthChanges.NextExtends | backend/src/services/auth.rs:139-652 | no call removes a row, unsets or moves a `revoked_at`, changes a key's material or makes a user invited again |
| AuthChanges.RunExtends | backend/src/services/auth.rs:139-652 | the same between any two states of a run: a set `revoked_at` is final, on refresh rows and on API tokens |
| AuthSessions.RunsKeepChains | backend/src/services/auth.rs:320-372 | in every state of every run the refresh rows form disjoint chains, one per opened session, each of one user, every link but the last revoked, no row outside a chain |
| AuthSessions.OnlyTheLastLinkIsAccepted | backend/src/services/auth.rs:700-727 | whatever token is accepted, it stands for the last link of its chain |
| AuthSessions.ChainsAreSessions | backend/src/services/auth.rs:178-318 | in every state of every run there is one chain for each successful login or acceptance so far, in order, each begun by its refresh row |
| AuthSessions.NextChains | backend/src/services/auth.rs:139-534 | a successful login or acceptance adds one chain, a successful refresh one link behind the spent row, any other call nothing |
| AuthSessions.RefreshLengthensOneChain | backend/src/services/auth.rs:320-356 | a successful refresh puts its row behind the end of exactly one chain, the one of the spent token |
| AuthSessions.RevokedIsRefused | backend/src/services/auth.rs:700-727 | once its row is revoked, a token is refused in every later state at any time |
| AuthSessions.SpentTokenIsRefused | backend/src/services/auth.rs:320-372 | a token used to refresh or to log out is refused ever after in the run, by both calls, with no change of state |
| AuthSessions.SessionsAreConserved | backend/src/services/auth.rs:178-198 | in every state a user's unrevoked refresh rows are the successful logins and acceptances less the successful logouts; refreshes net zero |
| AuthSessions.NextGain | backend/src/services/auth.rs:565-590 | what each call adds to or takes from a user's unrevoked rows |
| AuthTokens.AccessTokenLastsUntilExpiry | backend/src/services/auth.rs:833-893 | an access token signed in any state of a run verifies in every later state to exactly its claims until expiry plus leeway and is refused after, through any number of key syncs |
| AuthTokens.RefreshTokenLastsUntilExpiry | backend/src/services/auth.rs:859-908 | the same for refresh tokens |
| AuthTokens.RefreshTokenIsNoBearer | backend/src/services/auth.rs:374-387 | a signed refresh token never authenticates a request, in any state, and changes nothing |
| AuthTokens.AccessTokenIsNoRefresh | backend/src/services/auth.rs:895-908 | a signed access token is never accepted by refresh or logout, and changes nothing |
| AuthTokens.ApiTokenIsNoJwt | backend/src/services/auth.rs:884-908 | an API token never verifies as a JWT and neither refreshes nor logs out |
| AuthTokens.AcceptedBearerIsActive | backend/src/services/auth.rs:374-387 | whoever a bearer credential is accepted for is a currently active user, as stored |
| AuthTokens.LoginSucceedsIff | backend/src/services/auth.rs:178-198 | login succeeds exactly for the email and password of an active user; then exactly one row opens, for that user, and otherwise the answer is Unauthorized with no change |
| AuthTokens.RefreshSucceedsIff | backend/src/services/auth.rs:320-356 | refresh succeeds exactly for an active record of an active user; a refusal changes nothing |
| AuthTokens.RefreshRotates | backend/src/services/auth.rs:333-346 | a successful refresh revokes the spent row, adds one row of the same user and touches no other |
| AuthTokens.PendingInviteAccepted | backend/src/services/auth.rs:265-318 | accepting an open invite of a pending user succeeds, sets that password, marks that invite and changes no other user or invite |
| AuthTokens.InviteCanBeAccepted | backend/src/services/auth.rs:200-318 | accepted right behind the invitation, the token of an invite link gives its user that password and a session, and a second use is refused |
| AuthLifetimes.AccessTokenAcrossRun | backend/src/services/auth.rs:374-387 | in every later state of a run, the access token a login, acceptance or refresh handed out authenticates exactly its user as stored then, precisely while it has not expired and the user is active; a logout, refresh or restart does not end it |
| AuthLifetimes.RefreshTokenAcrossRun | backend/src/services/auth.rs:700-727 | in every later state of a run, the refresh token handed out stands exactly for its own row, precisely while that row is unrevoked and unexpired |
| AuthLifetimes.ApiTokenAcrossRun | backend/src/services/auth.rs:452-534 | in every later state of a run, a created API token authenticates exactly its user, precisely while it is not revoked and the user is active, and only its last use is recorded |
| AuthLifetimes.InviteAcrossRun | backend/src/services/auth.rs:200-318 | in every later state of a run, the token of an invite link is accepted for the invited user precisely while it has not expired, that user still waits and the password can be hashed; otherwise nothing changes |
| AuthLifetimes.AnswerIssues | backend/src/services/auth.rs:565-590 | every successful login, acceptance and refresh leaves one new row of the answered user and hands out two tokens signed for that row |
| AuthEffects.LoginIsDescribed | backend/src/services/auth.rs:178-198 | a login answers the active user of that email as stored, with no workspace roles for a super admin and for anyone else exactly the roles its rows grant, as often as they do |
| AuthEffects.AcceptIsDescribed | backend/src/services/auth.rs:265-318 | the same for an acceptance, as stored behind it |
| AuthEffects.RefreshIsDescribed | backend/src/services/auth.rs:320-356 | the same for a refresh |
| AuthEffects.BearerIsDescribed | backend/src/services/auth.rs:374-387 | the same for a bearer credential |
| AuthEffects.RolesAreGrants | backend/src/services/auth.rs:754-770 | the roles a user is answered with are the rows with that user id, with multiplicities |
| AuthEffects.DescribedAccess | backend/src/services/auth.rs:927-941 | such a user may access a workspace exactly as super admin or with a row for it, and administer it exactly as super admin or with an admin row |
| AuthEffects.RolesAreInvitations | backend/src/services/auth.rs:245-254 | in every state of every run the role rows are those of the successful invitations so far, in order |
| AuthEffects.AccessAcrossRun | backend/src/services/auth.rs:927-933 | whoever authenticates in a state of a run may access a workspace exactly as super admin or when invited to it |
| AuthOutcomes.LogoutAcrossRun | backend/src/services/auth.rs:358-372 | in every later state of a run, a handed-out refresh token logs out exactly while its row is unrevoked and unexpired; it ends that row at that time and nothing else |
| AuthOutcomes.RefreshAcrossRun | backend/src/services/auth.rs:320-356 | in every later state of a run, it refreshes exactly while its row is unrevoked and unexpired and its user active |
| AuthOutcomes.ClaimsAcrossRun | backend/src/services/auth.rs:833-857 | the claims a handed-out access token is read as: session, user, email, role name, issuer, audience, time of signing and expiry |
| AuthOutcomes.OpenedIsVerified | backend/src/services/auth.rs:688-698 | a token opens only if its signature verifies with the key its header names, an RS256 signature key of the table |
| AuthOutcomes.AcceptedIsCurrent | backend/src/services/auth.rs:884-908 | accepted claims have this issuer, this audience and have not expired; those of a refresh token say so |
| AuthOutcomes.AcceptedRefreshIsGenuine | backend/src/services/auth.rs:700-727 | a refresh token stands for a row exactly if it verifies and names the row and its user, and the row is unrevoked and unexpired |
| AuthOutcomes.AcceptedBearerHolds | backend/src/services/auth.rs:374-387 | a bearer is accepted only for the subject of a valid access token or the user of an unrevoked API token with its hash |
| AuthOutcomes.CreateApiTokenOutcome | backend/src/services/auth.rs:452-480 | a token is created unless its hash is taken; it is the prefix and the random text, and one row with its hash and twelve characters is stored |
| AuthOutcomes.RevokeApiTokenOutcome | backend/src/services/auth.rs:495-534 | revoking succeeds exactly for a token of one's own; it sets the time, keeps an earlier one and touches no other row |
| AuthOutcomes.RevokedApiTokenIsRefused | backend/src/services/auth.rs:772-805 | in every state of a run behind its revocation, the token that was handed out is refused |
| AuthOutcomes.InviteOutcome | backend/src/services/auth.rs:200-263 | an invitation succeeds exactly for an administrator of an existing workspace, a role below super admin, a new email and a new token; its errors in order; the link, the expiry, the answered user and all rows |
| AuthOutcomes.AcceptRefusals | backend/src/services/auth.rs:265-284 | why the acceptance of a known invite is refused, with no change |
| AuthOutcomes.UnknownInviteRefused | backend/src/services/auth.rs:817-831 | a token no invite has is refused with no change |
| AuthPeople.AlwaysAnAdmin | backend/src/services/auth.rs:402-450 | every state of every run has an active super admin |
| AuthPeople.DisableGuard | backend/src/services/auth.rs:402-413 | disabling an active user is refused exactly when it would leave no active super admin |
| AuthPeople.ChangeRoleGuard | backend/src/services/auth.rs:430-450 | a role change is refused exactly when it would leave no active super admin |
| AuthPeople.DisableGuardExactIff | backend/src/services/auth.rs:402-413 | for any target the disable guard is exact if and only if the target is not an invited super admin beside a single active one |
| AuthOutcomes.DisableOutcome | backend/src/services/auth.rs:402-413 | disabling succeeds exactly for an existing user who is disabled already, is no super admin, or leaves another active one; that user alone becomes disabled and is answered as such; a refusal changes nothing |
| AuthOutcomes.DisabledStaysOut | backend/src/services/auth.rs:402-428 | in every state of a run behind an accepted disable, until that user is reactivated, no login, refresh, acceptance or bearer credential succeeds for that user |
| AuthOutcomes.ReactivateOutcome | backend/src/services/auth.rs:415-428 | reactivation succeeds exactly for a disabled user with a password, and makes that user alone active |
| AuthOutcomes.ChangeRoleOutcome | backend/src/services/auth.rs:430-450 | a role changes exactly unless it is the last active super admin's, and for that user alone |
| AuthPeople.DisableGuardRefusesTooMuch | backend/src/services/auth.rs:402-413 | a concrete state in which the guard refuses though an active super admin would remain |
| AuthPeople.RefusesTooMuchInARun | backend/src/services/auth.rs:402-450 | every installation can reach such a state: start, workspace, invitation, promotion of the invited user |
| AuthPeople.InviteSetsOnePassword | backend/src/services/auth.rs:265-306 | an invite sets a password at most once in a run, even if the call stops between its two updates, and that password stays |
| AuthPeople.DisabledBeforeAcceptingStays | backend/src/services/auth.rs:402-428 | a user disabled before accepting stays disabled without a password for the rest of the run |
| AuthPeople.RunsSettleIff | backend/src/services/auth.rs:265-306 | in a state of a run every invite is marked accepted exactly when its user has a password, if and only if no acceptance so far had an open invite of a waiting user and stopped between its two updates |
| AuthPeople.StaysSettledIff | backend/src/services/auth.rs:265-306 | one call keeps that equivalence if and only if it is not an acceptance of an open invite of a waiting user that stops after setting the password |
| AuthGuarantees.ReachableKeeps | backend/src/services/auth.rs:128-132 | a service object that was started once and then only called meets the invariant, has its refresh rows in chains, an active super admin, and as many open sessions per user as the answers say |
| AuthGuarantees.CreateWorkspace | backend/src/services/workspaces.rs:53-81 | a call on the shared store keeps the service in a run |
| AuthGuarantees.CreateEnvironment | backend/src/services/workspaces.rs:104-119 | the same for an environment |
| AuthGuarantees.CreateService | backend/src/services/app_services.rs:44-77 | the same for a service |
| AuthGuarantees.CreateEnvVar | backend/src/services/credentials.rs:103-121 | the same for an env var |
| AuthGuarantees.CreateEnvVars | backend/src/services/credentials.rs:123-150 | the same for a bulk insert of env vars |
| AuthExample.LawsCanBeMet | backend/src/libs/config.rs:350-403 | hashing, identifiers and signing that meet every assumed law exist, with a key pair that belongs together |
| AuthService.Service.Login | backend/src/services/auth.rs:178-198 | new state and answer are the login step of the old state |
| AuthService.Service.RefreshSession | backend/src/services/auth.rs:320-356 | new state and answer are the refresh step; a failure inside the transaction leaves no row |
| AuthService.Service.Logout | backend/src/services/auth.rs:358-372 | new state and answer are the logout step |
| AuthService.Service.InviteUser | backend/src/services/auth.rs:200-263 | new state and answer are the invite step, errors in the code's order |
| AuthService.Service.BeginAcceptance | backend/src/services/auth.rs:265-295 | the first half of an acceptance: the lookup, its refusals, and the user's update |
| AuthService.Service.CompleteAcceptance | backend/src/services/auth.rs:296-318 | the second half: the invite's update and the new session |
| AuthService.Service.AcceptInvite | backend/src/services/auth.rs:265-318 | both halves in one call |
| AuthService.Service.AcceptInviteInterrupted | backend/src/services/auth.rs:265-295 | the call that ends behind its first update |
| AuthService.Service.AuthenticateBearer | backend/src/services/auth.rs:374-387 | the bearer step: JWT first, API token only after Unauthorized |
| AuthService.Service.AuthenticateApiToken | backend/src/services/auth.rs:772-805 | the API-token step, with its use recorded |
| AuthService.Service.CreateApiToken | backend/src/services/auth.rs:452-480 | the step that stores a token's hash and hands out the token |
| AuthService.Service.RevokeApiToken | backend/src/services/auth.rs:495-534 | the step that revokes a user's own token and keeps an earlier `revoked_at` |
| AuthService.Service.DisableUser | backend/src/services/auth.rs:402-413 | the disable step |
| AuthService.Service.ReactivateUser | backend/src/services/auth.rs:415-428 | the reactivation step |
| AuthService.Service.ChangeUserRole | backend/src/services/auth.rs:430-450 | the role-change step |
| AuthService.Service.ActiveSuperAdminCount | backend/src/services/auth.rs:551-563 | the number of users who are super admin and active |
| AuthService.Service.SyncActiveJwtPublicKey | backend/src/services/auth.rs:592-652 | the key table becomes the synchronized one, or stays if the configured key cannot be read |
| AuthService.Service.BootstrapAdmin | backend/src/services/auth.rs:139-164 | the start-up step: sync, then an admin only for an empty user table; the first successful start of an empty store begins a run |
| AuthService.Service.SignToken | backend/src/services/auth.rs:669-686 | the signing step: the active key's id in the header, the configured private key |
| AuthService.Service.DecodeToken | backend/src/services/auth.rs:688-698 | the opening step: the key the header names, its metadata checked |
| AuthService.Service.ActiveRefreshRecord | backend/src/services/auth.rs:700-727 | the refresh row a token stands for, with every refusal |
| ShellLexer.LexSeparated | backend/src/libs/docker.rs:100-110 | joining two texts by a blank joins their words and operators |
| Docker.LexShellQuote | backend/src/libs/docker.rs:114-116 | a quoted value is read as exactly one word, every character quoted and equal to the value, whatever the value |
| Docker.ShellQuoteSplices | backend/src/libs/docker.rs:114-116 | the quoted text itself: quotes around, and every inner quote closed, escaped and opened again |
| Docker.RenderAppends | backend/src/libs/docker.rs:100-110 | a command's text grows by one blank and the new token's text |
| Docker.LexRender | backend/src/libs/docker.rs:82-116 | a rendered command is read as its literals' own words and operators with each argument exactly one word |
| Docker.RenderInjective | backend/src/libs/docker.rs:82-116 | commands over the same literals render alike only if their arguments are alike |
| Docker.SkeletonIsIndependent | backend/src/libs/docker.rs:82-116 | commands over the same literals differ, to a shell, only inside fully quoted words |
| Docker.ImageCommandsRead | backend/src/libs/docker.rs:171-185 | what a shell reads of an image deploy: three given commands with the image and container as single words |
| Docker.ComposeCommandsRead | backend/src/libs/docker.rs:187-198 | the same for a compose deploy |
| Docker.DockerfileCommandsRead | backend/src/libs/docker.rs:200-223 | the same for a Dockerfile deploy |
| Docker.RestartCommandReads | backend/src/libs/docker.rs:225-229 | the same for a restart |
| Deployments.RestartReads | backend/src/libs/docker.rs:225-229 | the rendered restart command is read as its two bare words and the container name as one word |
| Docker.ServiceDirIsOneLevelDown | backend/src/libs/docker.rs:239-253 | a valid service's directory is exactly one proper name below the root |
| Docker.NamesAreDistinct | backend/src/libs/docker.rs:231-241 | two valid names give the same directory, container or image tag exactly when they are equal |
| Docker.BuiltImageIsValid | backend/src/libs/docker.rs:121-154 | the tag built for a valid service is a valid image reference |
| Docker.ServiceNameIff | backend/src/libs/docker.rs:121-141 | the accepted service names by their characters: 1 to 63 of them |
| Docker.ImageReferenceIff | backend/src/libs/docker.rs:143-154 | the accepted image references by their characters: 1 to 255 of them |
| Docker.ServiceDirShape | backend/src/libs/docker.rs:239-253 | the directory is the root without its trailing slashes, one slash and the name |
| Paths.PathJoinShape | backend/src/libs/docker.rs:243-253 | a join is the parent and the child without the slashes between and behind, joined by one; a slash or the parent alone if nothing else is left |
| Paths.PathJoinAssociative | backend/src/libs/docker.rs:243-253 | joining is associative for all strings |
| Paths.PathJoinIgnoresSlashes | backend/src/libs/docker.rs:243-253 | slashes at the joint and after the child make no difference, however many |
| Paths.ComponentsPathJoin | backend/src/libs/docker.rs:243-253 | joining paths appends their names |
| Deployments.PlannedCommandsRead | backend/src/services/deployments.rs:25-46 | every command of an accepted plan, rendered and lexed, is the words and operators the service calls for |
| Deployments.PlannedIff | backend/src/services/deployments.rs:25-46 | a plan is made exactly for an acceptable name and, of an image service, an acceptable image or none |
| Deployments.DeploysItsImage | backend/src/services/deployments.rs:36-41 | an image service pulls and runs its own image, `missing-image` if it has none, each time as one quoted word |
| Deployments.CreatedServiceDeploysItsImage | backend/src/services/app_services.rs:44-77 | a service created with an acceptable name and image plans a deploy that pulls that image |
| Deployments.RecordedRun | backend/src/services/deployments.rs:114-172 | a record is made exactly if the executor gives a run: its ids, time, status and transcript |
| Deployments.PlansShareSkeleton | backend/src/services/deployments.rs:25-46 | the rendered commands of two accepted services of one kind are read alike: same operators and fixed words at the same places, whatever names, images and settings |
| Deployments.ServicesShareIff | backend/src/services/deployments.rs:25-46 | two accepted services, whatever their workspaces, share directory, container and tag exactly when their names are equal, and exactly then a deploy of the one removes the container of the other |
| Deployments.NamesMayRepeat | backend/src/services/app_services.rs:44-77 | a run of the tables ends in two accepted services of one name in different workspaces, with the same plan |
| Deployments.PreviewIsInvertible | backend/src/libs/deploy_executor.rs:43-113 | a preview is queued, and its transcript splits back into the commands in order, each lexing to its plan, exactly when no setting it uses holds a newline |
| Deployments.StoredPreviewIsInvertible | backend/src/services/deployments.rs:116-172 | the same of the record that is stored |
| Deployments.StoredRestartIsInvertible | backend/src/services/deployments.rs:105-131 | a previewed restart is queued and always told back by what is stored |
| Deployments.DeploymentService.TriggerDeploy | backend/src/services/deployments.rs:97-103 | a missing service or a refused plan stores nothing; otherwise exactly the run's record is stored |
| Deployments.DeploymentService.RestartService | backend/src/services/deployments.rs:105-112 | the same for a restart |
| Deployments.DeploymentService.RunAndRecord | backend/src/services/deployments.rs:116-131 | a failed run stores nothing; otherwise one record with the run's status and transcript |
| Utf8.DecodeEncode | backend/src/libs/crypto.rs:6-26 | every text's octets decode to it |
| Utf8.DecodeIffEncode | backend/src/libs/crypto.rs:6-26 | an octet string decodes to a text exactly when it is the text's encoding |
| Utf8.EncodeCharIsTheTable | backend/src/libs/crypto.rs:6-15 | a character's octets follow the table of RFC 3629 and hold its value |
| Utf8.EncodeConcat | backend/src/libs/crypto.rs:6-15 | a text is encoded character by character |
| Base64.DecodeEncode | backend/src/libs/crypto.rs:6-26 | every octet string's encoding decodes to it |
| Base64.DecodeIffEncode | backend/src/libs/crypto.rs:6-26 | the strict decoder accepts exactly the encoder's outputs |
| Base64.EncodeIsPositional | backend/src/libs/crypto.rs:6-15 | every three octets are written as four digits of their 24 bits, in order, with padding for missing octets |
| Base64.SymbolsAreTheAlphabet | backend/src/libs/crypto.rs:6-15 | the digits are the standard alphabet |
| Crypto.XorWithKeyTwice | backend/src/libs/crypto.rs:6-26 | XOR with the repeating key undoes itself |
| Crypto.DecryptEncrypt | backend/src/libs/crypto.rs:6-26 | what was encrypted is decrypted, for every key and text |
| Crypto.DecryptIffEncrypt | backend/src/libs/crypto.rs:6-26 | a stored value decrypts to a text exactly when it is that text's encryption |
| Crypto.EncryptedBits | backend/src/libs/crypto.rs:6-15 | a stored value is base64 of as many octets as the text, each bit the exclusive or of the text's bit and of the key digest's at that place, repeating every 32 octets |
| Crypto.OtherKeyStoresOtherwise | backend/src/libs/crypto.rs:6-15 | two digests that differ at an octet the text reaches store it differently |
| Text.ReplaceKeepsOut | backend/src/libs/deploy_executor.rs:72-80 | a string that does not overlap the marker is in no replaced text unless it was there and not what was replaced |
| Text.ReplaceInsideMarker | backend/src/libs/deploy_executor.rs:72-80 | a string inside its marker survives replacement in every text that had it |
| Text.OverlapsIff | backend/src/libs/deploy_executor.rs:72-80 | overlapping is containing, being contained, or an end of one being a start of the other |
| Text.InterleaveShape | backend/src/libs/ssh.rs:67-75 | replacing an empty string puts the marker before every character and at the end and keeps all characters |
| Text.TrimTrailingShape | backend/src/libs/deploy_executor.rs:50-57 | trimming takes the white space at the end, all of it and nothing else |
| Redaction.ReplaceRemovesIff | backend/src/libs/deploy_executor.rs:72-80 | replacing a string by a marker removes it from every text exactly when the marker cannot bring it back |
| Redaction.ReplaceRemovesWithin | backend/src/libs/ssh.rs:67-75 | what cannot return in time is not among the first characters of any text it was replaced in |
| Redaction.OtherMarkerKeepsBehind | backend/src/libs/ssh.rs:67-75 | replacing another string does not bring a string into the first characters unless it overlaps that string's marker in time |
| Redaction.ReturningOverlaps | backend/src/libs/deploy_executor.rs:72-80 | what can return overlaps the marker |
| Redaction.StaysOutIff | backend/src/libs/deploy_executor.rs:72-80 | a string is brought in by no replacement of another exactly when it does not overlap the marker |
| DeployExecutor.RedactSecrets | backend/src/libs/deploy_executor.rs:72-80 | the loop is sequential replacement of the non-empty secrets |
| DeployExecutor.RedactedHides | backend/src/libs/deploy_executor.rs:72-80 | a secret of the list does not occur in the result if it does not overlap the marker or, standing last, cannot return |
| DeployExecutor.RedactedKeepsOut | backend/src/libs/deploy_executor.rs:72-80 | redaction brings in no such string that was not there |
| DeployExecutor.RedactedLeavesTheRest | backend/src/libs/deploy_executor.rs:72-80 | a text that holds none of the secrets is not touched, and empty secrets touch nothing |
| DeployExecutor.RedactedOnce | backend/src/libs/deploy_executor.rs:72-80 | a secret is replaced by `[redacted]` where it first occurs, and redaction goes on behind it |
| DeployExecutor.RedactedInOrder | backend/src/libs/deploy_executor.rs:72-80 | the secrets are redacted one after the other |
| DeployExecutor.HiddenByEveryListIff | backend/src/libs/deploy_executor.rs:70-80 | a secret is hidden by every list that names it, in every text, exactly when it does not overlap the marker |
| DeployExecutor.OnlySecretHiddenIff | backend/src/libs/deploy_executor.rs:70-80 | a single secret is hidden in every text exactly when it cannot return |
| DeployExecutor.RedactionKeepsMarkerText | backend/src/libs/deploy_executor.rs:70-80 | the secret `redacted` stays in every text that holds it |
| DeployExecutor.ToOutput | backend/src/libs/deploy_executor.rs:43-67 | the loop builds the transcript: command, non-empty redacted streams, exit line or closing remark, joined by newlines |
| DeployExecutor.LinesSay | backend/src/libs/deploy_executor.rs:47-60 | each outcome adds its command, its trimmed and redacted streams if they are not empty and, if executed, its exit code |
| DeployExecutor.TranscriptSays | backend/src/libs/deploy_executor.rs:61-66 | the transcript is those lines and, if nothing was executed, the remark |
| DeployExecutor.DecimalReads | backend/src/libs/deploy_executor.rs:58-60 | exit codes are written in decimal |
| DeployExecutor.PreviewRunIs | backend/src/libs/deploy_executor.rs:95-113 | a preview renders every command in order and says it was not executed and succeeded |
| DeployExecutor.TranscriptLeaksOnlyFixedLines | backend/src/libs/deploy_executor.rs:43-67 | a shielded secret without a newline is in the transcript exactly when it is in a line stored as it is |
| DeployExecutor.TranscriptsSafeIff | backend/src/libs/deploy_executor.rs:43-80 | a secret that does not overlap the marker is in no transcript but by a line stored as it is, whatever was run and whatever else is secret, exactly when it holds no newline |
| DeployExecutor.StraddlingLeaks | backend/src/libs/deploy_executor.rs:43-67 | every secret with a newline is shown by some run whose command line ends with its beginning and whose output starts with its end |
| DeployExecutor.TrimmedSecretLeaks | backend/src/libs/deploy_executor.rs:43-67 | a secret that is a key and one newline is shown by a command that prints just it: trimming hides it from redaction and joining the lines completes it |
| DeployExecutor.KeyFileLeaks | backend/src/libs/deploy_executor.rs:43-67 | such a secret that shares nothing with the marker |
| DeployExecutor.PreviewSplits | backend/src/libs/deploy_executor.rs:95-113 | a preview's transcript splits into one line per command and the remark |
| Ssh.ValidateAllowedCommands | backend/src/libs/ssh.rs:39-46 | accepted exactly when every command is one of the two allowed ones |
| Ssh.RedactError | backend/src/libs/ssh.rs:67-75 | the three replacements in order, cut to 500 characters |
| Ssh.ScrubbedHides | backend/src/libs/ssh.rs:67-75 | a safe key is not in the scrubbed message cut to its first characters, for every length of the cut |
| Ssh.PrivateKeyHiddenIff | backend/src/libs/ssh.rs:67-75 | a private key is hidden in every cut message, whatever the other keys, exactly when it is safe for that cut; for a key that can be stored, already among the servers that can be stored |
| Ssh.PublicKeyHiddenIff | backend/src/libs/ssh.rs:67-75 | the same for the public key |
| Ssh.PassphraseHiddenIff | backend/src/libs/ssh.rs:67-75 | the same for the passphrase |
| Ssh.ScrubbedLeavesTheRest | backend/src/libs/ssh.rs:67-75 | a message without the keys is not changed before the cut |
| Ssh.ScrubbedOnce | backend/src/libs/ssh.rs:67-75 | a key is replaced where it occurs by the marker of its kind |
| Tenancy.RunsAreTenanted | backend/src/services/workspaces.rs:53-119 | in every state of every run: each workspace has an environment, each environment, role and service an existing workspace, each service an environment of its own workspace, each env var an environment and service of its own workspace |
| Tenancy.NextKeepsTenanted | backend/src/services/app_services.rs:44-77 | every single call keeps that |
| Tenancy.BulkIsFold | backend/src/services/credentials.rs:123-150 | the bulk insert is all or nothing and equals the single inserts in order: same rows, replies and error |
| Tenancy.ScopeIgnoresEnvVars | backend/src/services/credentials.rs:152-176 | env-var rows do not change what scope validation answers |
| Tenancy.StoredValueDecrypts | backend/src/services/credentials.rs:103-121 | the stored value decrypts to the given one and the reply shows none of it |
| TenancyEffects.WorkspaceCreated | backend/src/services/workspaces.rs:53-81 | a workspace with the given fields and one environment named production, and no other change |
| TenancyEffects.EnvironmentCreated | backend/src/services/workspaces.rs:104-119 | an environment with the given fields exactly for an existing workspace, and no other change |
| TenancyEffects.ServiceCreated | backend/src/services/app_services.rs:44-77 | a service exactly for an existing workspace and an environment of it; every field is the input's, one row is added, nothing else changes |
| TenancyEffects.EnvVarCreated | backend/src/services/credentials.rs:103-121 | an env var exactly if its workspace exists and owns the environment and service it names; the row holds the input, the value encrypted, the reply masked, nothing else changes |
| TenancyEffects.EnvVarRefused | backend/src/services/credentials.rs:152-176 | a refusal names the first missing thing and changes nothing |
| TenancyEffects.EnvVarsCreated | backend/src/services/credentials.rs:123-150 | a bulk insert succeeds exactly if every input may be stored; then each row and reply holds its own input, and otherwise nothing changes |
| TenancyEffects.AccessIff | backend/src/services/auth.rs:927-941 | access is a super admin's or comes with any role of the workspace, administration with the admin role |
| TenantStore.SortPermutes | backend/src/services/workspaces.rs:32-51 | sorting adds and loses nothing |
| TenantStore.DedupById | backend/src/services/workspaces.rs:32-51 | dropping equal neighbours of a sorted list leaves the same rows, strictly increasing by id |
| TenantStore.Store.ListAccessibleWorkspaces | backend/src/services/workspaces.rs:32-51 | exactly the existing workspaces `can_access_workspace` allows, each once; strictly increasing by id for all but super admins, whatever repetitions the roles hold |
| TenantStore.Store.ListWorkspaces | backend/src/services/workspaces.rs:24-30 | every row once |
| TenantStore.Store.CreateWorkspace | backend/src/services/workspaces.rs:53-81 | the workspace and its production environment together |
| TenantStore.Store.CreateEnvironment | backend/src/services/workspaces.rs:104-119 | the environment step |
| TenantStore.Store.CreateService | backend/src/services/app_services.rs:44-77 | the service step with its two refusals in order |
| TenantStore.Store.ValidateEnvVarScope | backend/src/services/credentials.rs:152-176 | the first reason an env var may not be stored, if any |
| TenantStore.Store.CreateEnvVar | backend/src/services/credentials.rs:103-121 | the single-insert step |
| TenantStore.Store.CreateEnvVars | backend/src/services/credentials.rs:123-150 | the two loops are the bulk-insert step |
| TenantStore.Store.GrantRole | backend/src/services/auth.rs:245-254 | the role row an invitation inserts |

## Left out

- Interleaving of concurrent calls, and stops in the middle of a call other than `accept_invite` between its two updates: each call is one step.
- DeployExecutor.HiddenByEveryListIff: exact over all lists that name the secret; for one given list only sufficiency is stated (RedactedHides), since an earlier replacement can make a later leak impossible.
- DeployExecutor.TranscriptsSafeIff: exact over all runs and lists; for one given run and a secret with a newline no condition is stated.
- AuthTokens.AccessTokenLastsUntilExpiry: one signing process; a restart keeps issuer and audience, as changing them refuses every earlier token.
- ShellLexer.LexSeparated: the lexer refuses unquoted and double-quoted `$` and backquote instead of reading expansions, and leaves out IO_NUMBER, reserved words, here-documents and line continuation inside operators; no literal of the builders uses them.
- A first start that fails behind the key sync: a run begins with the first start that succeeds on an empty database.
- RemoteCommand is a value: `lit` and `arg` consume the builder and return it, so no caller sees it change in place.
- RFC 3339 text: instants are stored as numbers of nanoseconds, so parse errors of stored dates and the failed comparison they cause are not modelled; overflow of TTL arithmetic is not modelled either.
- JWT encoding that fails although the key is valid, and error texts of outside libraries: encoding is total and messages are abbreviated.
- Database errors other than a violated unique column on an invite or API-token hash, and rows inserted behind the service's back.
- The order of rows in `list_workspaces`, which the code leaves to the database.
- `list_users`, `list_api_tokens`, `jwks`, `list_services`, `list_environments`, `list_deployments` and docker credentials: plain reads and inserts.
- Domains of a service and the text forms of enums.
- Request extractors, routes, OpenAPI, `config.rs` precedence, queues, proxies, server checks and their output parser, the SSH transport and the frontend.
